/** What operand expressions mean, as a relation that does not use the assembler's arithmetic, and
    which operands are accepted. */
module OperandMeaning {
  import opened Prelude
  import opened Bits
  import opened AsmExpression

  ghost predicate Congruent(a: int, b: int) {
    (a - b) % 0x1_0000_0000_0000_0000 == 0
  }

  /** r is the result of the operator, in unsigned 64-bit arithmetic. */
  ghost predicate Denotes(op: Op, x: int, y: int, r: int) {
    && InRange(r)
    && match op
       case Add => Congruent(r, x + y)
       case Sub => Congruent(r + y, x)
       case Mul => Congruent(r, x * y)
       case Div => y != 0 && r * y <= x < (r + 1) * y
       case Or => Bitwise((a, b) => a || b, x, y, r, 64)
       case And => Bitwise((a, b) => a && b, x, y, r, 64)
       case Shl => 0 <= y && Congruent(r, x * Pow2(y))
       case Shr => 0 <= y && r * Pow2(y) <= x < (r + 1) * Pow2(y)
       case Eq => if x == y then r + 1 == W else r == 0
       case Lt => if x < y then r + 1 == W else r == 0
       case Gt => if x > y then r + 1 == W else r == 0
  }

  /** v is the value of the expression with every label replaced by its final address. */
  ghost predicate Means(e: Expr, c: Context, p: Placement, v: int) {
    match e
    case Number(n) => v == n
    case Here => InRange(v) && Congruent(v, c.lc + (if c.lcTag.rel then p.base(c.lcTag.seg) else 0))
    case Id(x) =>
      var s := c.Look(x);
      InRange(v) && Congruent(v, if s.tag.imp then p.imports(x) else s.value + (if s.tag.rel then p.base(s.tag.seg) else 0))
    case Neg(a) => exists x :: Means(a, c, p, x) && InRange(v) && Congruent(v + x, 0)
    case Not(a) => exists x :: Means(a, c, p, x) && v + x == W - 1
    case Bin(op, a, b) => exists x, y :: Means(a, c, p, x) && Means(b, c, p, y) && Denotes(op, x, y, v)
  }

  // ---- the operators

  lemma WrapIsCongruent(n: int, r: int)
    ensures InRange(r) && Congruent(r, n) <==> r == Wrap(n)
  {
    if InRange(r) && Congruent(r, n) {
      var k := (r - n) / W;
      assert r - n == W * k;
      ModuloIs(n, W, -k, r);
    }
    if r == Wrap(n) {
      assert r - n == W * (-(n / W)) + 0;
      ModuloIs(r - n, W, -(n / W), 0);
    }
  }

  lemma QuotientIs(x: int, d: pos, r: int)
    ensures r * d <= x < (r + 1) * d <==> r == x / d
  {
    assert (r + 1) * d == r * d + d;
    if r * d <= x < (r + 1) * d {
      ModuloIs(x, d, r, x - r * d);
    }
  }

  /** Shifting by the width or more leaves nothing. */
  lemma WideShift(y: nat)
    requires y >= 64
    ensures Pow2(y) >= W && Pow2(y) % W == 0
  {
    Pow2Adds(64, y - 64);
    LongIsPow2();
    ModuloIs(Pow2(y), W, Pow2(y - 64), 0);
    assert W * Pow2(y - 64) >= W;
  }

  lemma ShiftDenotes(x: int, y: int, r: int)
    requires InRange(x) && InRange(y)
    ensures Denotes(Shl, x, y, r) <==> r == Arith(Shl, x, y)
    ensures Denotes(Shr, x, y, r) <==> r == Arith(Shr, x, y)
  {
    WrapIsCongruent(x * Pow2(y), r);
    ArithRange(Shr, x, y);
    if y < 64 {
      QuotientIs(x, Pow2(y), r);
    } else {
      WideShift(y);
      MultipleWraps(x, Pow2(y));
      QuotientIs(x, Pow2(y), r);
      assert x / Pow2(y) == 0 by {
        ModuloIs(x, Pow2(y), 0, x);
      }
    }
  }

  lemma MultipleWraps(x: int, d: int)
    requires d % W == 0
    ensures Wrap(x * d) == 0
  {
    var k := d / W;
    assert d == W * k;
    assert x * d == W * (x * k) + 0 by {
      assert x * (W * k) == W * (x * k);
    }
    ModuloIs(x * d, W, x * k, 0);
  }

  lemma BitsDenote(x: int, y: int, r: int)
    requires InRange(x) && InRange(y)
    ensures Denotes(Or, x, y, r) <==> r == Arith(Or, x, y)
    ensures Denotes(And, x, y, r) <==> r == Arith(And, x, y)
  {
    AndOrXor(x, y, 64);
    ArithRange(Or, x, y);
    ArithRange(And, x, y);
    LongIsPow2();
    if Denotes(Or, x, y, r) {
      BitwiseIsUnique((a, b) => a || b, x, y, r, Arith(Or, x, y), 64);
    }
    if Denotes(And, x, y, r) {
      BitwiseIsUnique((a, b) => a && b, x, y, r, Arith(And, x, y), 64);
    }
  }

  lemma SumsDenote(x: int, y: int, r: int)
    ensures Denotes(Add, x, y, r) <==> r == Arith(Add, x, y)
    ensures Denotes(Sub, x, y, r) <==> r == Arith(Sub, x, y)
    ensures Denotes(Mul, x, y, r) <==> r == Arith(Mul, x, y)
  {
    WrapIsCongruent(x + y, r);
    WrapIsCongruent(x - y, r);
    WrapIsCongruent(x * y, r);
  }

  lemma QuotientDenotes(x: int, y: int, r: int)
    requires InRange(x) && InRange(y)
    ensures Denotes(Div, x, y, r) <==> y != 0 && r == Arith(Div, x, y)
  {
    if y != 0 {
      ArithRange(Div, x, y);
      QuotientIs(x, y, r);
    }
  }

  /** The arithmetic of the assembler gives exactly the results that the operators denote. */
  lemma ArithDenotes(op: Op, x: int, y: int, r: int)
    requires InRange(x) && InRange(y)
    ensures Denotes(op, x, y, r) <==> r == Arith(op, x, y) && (op == Div ==> y != 0)
  {
    ArithRange(op, x, y);
    SumsDenote(x, y, r);
    QuotientDenotes(x, y, r);
    ShiftDenotes(x, y, r);
    BitsDenote(x, y, r);
  }

  // ---- whole operands

  lemma LeafMeans(e: Expr, c: Context, p: Placement, v: int)
    requires e.Here? || e.Id?
    ensures Means(e, c, p, v) <==> v == Meaning(e, c, p)
  {
    if e.Here? {
      WrapIsCongruent(c.lc + BaseOf(c.lcTag, p), v);
    } else {
      WrapIsCongruent(if c.Look(e.name).tag.imp then p.imports(e.name) else c.Look(e.name).value + BaseOf(c.Look(e.name).tag, p), v);
    }
  }

  lemma NegationMeans(x: int, v: int)
    requires InRange(x)
    ensures InRange(v) && Congruent(v + x, 0) <==> v == Wrap(-x)
    ensures InRange(W - 1 - x)
  {
    WrapIsCongruent(-x, v);
  }

  lemma {:induction false} MeaningRange(e: Expr, c: Context, p: Placement)
    requires NumbersInRange(e)
    ensures InRange(Meaning(e, c, p))
  {
    match e
    case Neg(a) => MeaningRange(a, c, p);
    case Not(a) => MeaningRange(a, c, p);
    case Bin(op, a, b) =>
      MeaningRange(a, c, p);
      MeaningRange(b, c, p);
      ArithRange(op, Meaning(a, c, p), Meaning(b, c, p));
    case _ =>
  }

  /** Whatever the expression means is the value that the model computes. */
  lemma {:induction false} MeansIsMeaning(e: Expr, c: Context, p: Placement, v: int)
    requires NumbersInRange(e) && Means(e, c, p, v)
    ensures v == Meaning(e, c, p)
  {
    match e
    case Number(_) =>
    case Here => LeafMeans(e, c, p, v);
    case Id(_) => LeafMeans(e, c, p, v);
    case Neg(a) =>
      var x :| Means(a, c, p, x) && InRange(v) && Congruent(v + x, 0);
      MeansIsMeaning(a, c, p, x);
      MeaningRange(a, c, p);
      NegationMeans(x, v);
    case Not(a) =>
      var x :| Means(a, c, p, x) && v + x == W - 1;
      MeansIsMeaning(a, c, p, x);
    case Bin(op, a, b) =>
      var x, y :| Means(a, c, p, x) && Means(b, c, p, y) && Denotes(op, x, y, v);
      MeansIsMeaning(a, c, p, x);
      MeansIsMeaning(b, c, p, y);
      MeaningRange(a, c, p);
      MeaningRange(b, c, p);
      ArithDenotes(op, x, y, v);
  }

  /** No divisor in the expression is zero. */
  ghost predicate Divides(e: Expr, c: Context, p: Placement) {
    match e
    case Neg(a) => Divides(a, c, p)
    case Not(a) => Divides(a, c, p)
    case Bin(op, a, b) => Divides(a, c, p) && Divides(b, c, p) && (op == Div ==> Meaning(b, c, p) != 0)
    case _ => true
  }

  /** Where no divisor is zero the expression means something; it is the value that the model computes. */
  lemma {:induction false} MeaningMeans(e: Expr, c: Context, p: Placement)
    requires NumbersInRange(e) && Divides(e, c, p)
    ensures Means(e, c, p, Meaning(e, c, p))
  {
    match e
    case Number(_) =>
    case Here => LeafMeans(e, c, p, Meaning(e, c, p));
    case Id(_) => LeafMeans(e, c, p, Meaning(e, c, p));
    case Neg(a) =>
      MeaningMeans(a, c, p);
      MeaningRange(a, c, p);
      NegationMeans(Meaning(a, c, p), Meaning(e, c, p));
    case Not(a) =>
      MeaningMeans(a, c, p);
    case Bin(op, a, b) =>
      MeaningMeans(a, c, p);
      MeaningMeans(b, c, p);
      MeaningRange(a, c, p);
      MeaningRange(b, c, p);
      ArithDenotes(op, Meaning(a, c, p), Meaning(b, c, p), Meaning(e, c, p));
  }

  lemma AcceptedParts(op: Op, a: Expr, b: Expr, c: Context)
    requires !Eval(Bin(op, a, b), c).bad
    ensures !Eval(a, c).bad && !Eval(b, c).bad
    ensures op == Div && c.last ==> Eval(b, c).offset != 0 && !Eval(b, c).tag.rel
  {
  }

  lemma {:induction false} AcceptedDivides(e: Expr, c: Context, p: Placement)
    requires c.last && Sane(c) && WellTagged(c) && NumbersInRange(e) && Unwrapped(e, c, p) && !Eval(e, c).bad
    ensures Divides(e, c, p)
  {
    match e
    case Neg(a) => AcceptedDivides(a, c, p);
    case Not(a) => AcceptedDivides(a, c, p);
    case Bin(op, a, b) =>
      AcceptedParts(op, a, b, c);
      AcceptedDivides(a, c, p);
      AcceptedDivides(b, c, p);
      OperandIsSound(b, c, p);
      if op == Div {
        AbsoluteFinal(Eval(b, c), p);
      }
    case _ =>
  }

  /** An accepted operand denotes the value of the source expression, wherever the linker puts
      segments and imports. */
  lemma OperandDenotes(e: Expr, c: Context, p: Placement)
    requires c.last && Sane(c) && WellTagged(c) && NumbersInRange(e) && Unwrapped(e, c, p) && !Eval(e, c).bad
    ensures Means(e, c, p, Final(Eval(e, c), p))
    ensures forall v | Means(e, c, p, v) :: v == Final(Eval(e, c), p)
  {
    OperandIsSound(e, c, p);
    AcceptedDivides(e, c, p);
    MeaningMeans(e, c, p);
    forall v | Means(e, c, p, v)
      ensures v == Final(Eval(e, c), p)
    {
      MeansIsMeaning(e, c, p, v);
    }
  }

  // ---- which operands are accepted

  /** Tags that an operator cannot take. */
  predicate Unfit(op: Op, l: Tag, r: Tag) {
    match op
    case Add => l.rel && r.rel
    case Sub => r.rel && !(l.rel && l.seg == r.seg && !l.imp && !r.imp)
    case Eq => l.imp || r.imp || l.rel != r.rel || l.seg != r.seg
    case Lt => l.imp || r.imp || l.rel != r.rel || l.seg != r.seg
    case Gt => l.imp || r.imp || l.rel != r.rel || l.seg != r.seg
    case _ => l.rel || r.rel
  }

  /** An operator is refused exactly for its tags, for a zero divisor, or because an operand was. */
  lemma AcceptedOperator(op: Op, l: Value, r: Value, last: bool)
    ensures Combine(op, l, r, last).bad <==>
              l.bad || r.bad || (last && Unfit(op, l.tag, r.tag)) || (op == Div && r.offset == 0)
  {
  }

  /** Everything in the expression is defined and absolute. */
  predicate AllAbsolute(e: Expr, c: Context) {
    match e
    case Number(_) => true
    case Here => c.lcTag == ABSOLUTE
    case Id(x) => !c.Look(x).reserved && c.Look(x).known && c.Look(x).tag.(fwd := false) == ABSOLUTE
    case Neg(a) => AllAbsolute(a, c)
    case Not(a) => AllAbsolute(a, c)
    case Bin(op, a, b) => AllAbsolute(a, c) && AllAbsolute(b, c) && (op == Div ==> Eval(b, c).offset != 0)
  }

  /** Absolute operands are never refused, and stay absolute. */
  lemma {:induction false} AbsoluteIsAccepted(e: Expr, c: Context)
    requires AllAbsolute(e, c)
    ensures !Eval(e, c).bad && Eval(e, c).tag.(fwd := false) == ABSOLUTE
  {
    match e
    case Neg(a) => AbsoluteIsAccepted(a, c);
    case Not(a) => AbsoluteIsAccepted(a, c);
    case Bin(op, a, b) =>
      AbsoluteIsAccepted(a, c);
      AbsoluteIsAccepted(b, c);
    case _ =>
  }

  /** A label with an absolute value added or subtracted, and the distance of two labels of one
      segment, are accepted; the distance is absolute. */
  lemma AddressesAreAccepted(l: Value, a: Value, r: Value, last: bool)
    requires !l.bad && !a.bad && !r.bad && l.tag.rel && r.tag.rel && !l.tag.imp && !r.tag.imp && l.tag.seg == r.tag.seg
    requires !a.tag.rel && a.tag.seg == 0
    ensures !Combine(Add, l, a, last).bad && Combine(Add, l, a, last).tag.rel && Combine(Add, l, a, last).tag.seg == l.tag.seg
    ensures !Combine(Add, a, l, last).bad && Combine(Add, a, l, last).tag.rel && Combine(Add, a, l, last).tag.seg == l.tag.seg
    ensures !Combine(Sub, l, a, last).bad && Combine(Sub, l, a, last).tag.rel && Combine(Sub, l, a, last).tag.seg == l.tag.seg
    ensures !Combine(Sub, l, r, last).bad && !Combine(Sub, l, r, last).tag.rel && Combine(Sub, l, r, last).tag.seg == 0
  {
  }
}
