/** Operand expressions of as01 (as/express.c): values tagged with what the linker
    has to add to them, and the proof that the tags are right for every placement
    that the linker may choose. */
module AsmExpression {
  import opened Prelude
  import Bits

  /** Offsets are the host's size_t. */
  const W := 0x1_0000_0000_0000_0000

  function Wrap(x: int): int {
    x % W
  }

  /** The flags of a symbol or an expression: RELBIT, SEGM, IMPBIT, FORBIT, UNDBIT. */
  datatype Tag = Tag(rel: bool, seg: bv4, imp: bool, fwd: bool, und: bool)

  const ABSOLUTE := Tag(false, 0, false, false, false)

  const UNDEFINED := Tag(false, 0, false, true, true)

  /** The bitwise OR of two tags. */
  function Join(a: Tag, b: Tag): Tag {
    Tag(a.rel || b.rel, a.seg | b.seg, a.imp || b.imp, a.fwd || b.fwd, a.und || b.und)
  }

  /** A symbol: `known` for a label or a variable, `reserved` for a mnemonic,
      register or macro name. */
  datatype Symbol = Symbol(known: bool, reserved: bool, tag: Tag, value: int)

  /** What an operand is evaluated in; `last` is the second of the two passes, and
      `initial` the tag (`inidata`) of a name that is looked up for the first time. */
  datatype Context = Context(symbols: map<string, Symbol>, initial: Tag, lc: int, lcTag: Tag, last: bool)
  {
    function Look(x: string): Symbol {
      if x in symbols then symbols[x] else Symbol(false, false, initial, 0)
    }
  }

  datatype Op = Add | Sub | Or | Mul | Div | And | Shl | Shr | Eq | Lt | Gt

  datatype Expr =
    | Number(n: int)
    | Here
    | Id(name: string)
    | Neg(a: Expr)
    | Not(a: Expr)
    | Bin(op: Op, a: Expr, b: Expr)

  /** `lastexp`, and whether an error has been reported. */
  datatype Value = Value(offset: int, tag: Tag, sym: Option<string>, bad: bool)

  // ---- evaluation

  function Arith(op: Op, x: int, y: int): int {
    match op
    case Add => Wrap(x + y)
    case Sub => Wrap(x - y)
    case Or => LowBits(OrFn, x, y, 64)
    case Mul => Wrap(x * y)
    case Div => if y == 0 then 0 else x / y
    case And => LowBits(AndFn, x, y, 64)
    case Shl => if 0 <= y < 64 then Wrap(x * Pow2(y)) else 0
    case Shr => if 0 <= y < 64 then x / Pow2(y) else 0
    case Eq => if x == y then W - 1 else 0
    case Lt => if x < y then W - 1 else 0
    case Gt => if x > y then W - 1 else 0
  }

  /** An error that is reported in the last pass only. */
  function Refuse(v: Value, last: bool): Value {
    v.(tag := UNDEFINED, bad := v.bad || last)
  }

  function MustBeAbsolute(v: Value, last: bool): Value {
    if v.tag.rel then Refuse(v, last) else v
  }

  function Both(l: Value, r: Value, offset: int, tag: Tag): Value {
    Value(offset, tag, if r.sym.Some? then r.sym else l.sym, l.bad || r.bad)
  }

  /** The two sides differ in relocatability or segment. */
  predicate Differ(l: Tag, r: Tag) {
    l.rel != r.rel || l.seg != r.seg
  }

  function Combine(op: Op, l: Value, r: Value, last: bool): Value {
    CheckTags(op, l, r, Both(l, r, Arith(op, l.offset, r.offset), Join(l.tag, r.tag)), last)
  }

  function CheckTags(op: Op, l: Value, r: Value, joined: Value, last: bool): Value {
    match op
    case Add => if l.tag.rel && r.tag.rel then Refuse(joined, last) else joined
    case Sub =>
      if r.tag.rel && (!l.tag.rel || l.tag.imp || r.tag.imp || Differ(l.tag, r.tag)) then Refuse(joined, last)
      else joined.(tag := joined.tag.(rel := l.tag.rel != r.tag.rel, seg := l.tag.seg ^ r.tag.seg))
    case Eq => Compared(l, r, joined, last)
    case Lt => Compared(l, r, joined, last)
    case Gt => Compared(l, r, joined, last)
    case Div => MustBeAbsolute(joined.(bad := joined.bad || r.offset == 0), last)
    case _ => MustBeAbsolute(joined, last)
  }

  function Compared(l: Value, r: Value, joined: Value, last: bool): Value {
    if l.tag.imp || r.tag.imp || Differ(l.tag, r.tag) then Refuse(joined, last)
    else joined.(tag := Tag(false, 0, false, l.tag.fwd && r.tag.fwd, l.tag.und && r.tag.und))
  }

  /** A name that is not a label yet is marked as used before its definition. */
  function TagOf(s: Symbol): Tag {
    if s.known then s.tag else s.tag.(fwd := true)
  }

  function EvalId(x: string, c: Context): Value {
    var s := c.Look(x);
    if s.reserved then Value(0, UNDEFINED, None, true)
    else
      var v := Value(s.value, TagOf(s), if s.known then None else Some(x), false);
      if !c.last then v.(tag := v.tag.(imp := false))
      else if v.tag.imp then v.(offset := 0)
      else if v.tag.und then v.(tag := UNDEFINED, bad := true)
      else v
  }

  function EvalHere(c: Context): Value {
    if c.lcTag.und && c.last then Value(c.lc, UNDEFINED, None, true)
    else Value(c.lc, c.lcTag, None, false)
  }

  function Eval(e: Expr, c: Context): Value {
    match e
    case Number(n) => Value(n, ABSOLUTE, None, false)
    case Here => EvalHere(c)
    case Id(x) => EvalId(x, c)
    case Neg(a) =>
      var v := MustBeAbsolute(Eval(a, c), c.last);
      v.(offset := Wrap(-v.offset))
    case Not(a) =>
      var v := MustBeAbsolute(Eval(a, c), c.last);
      v.(offset := W - 1 - v.offset)
    case Bin(op, a, b) => Combine(op, Eval(a, c), Eval(b, c), c.last)
  }

  // ---- meaning

  /** Where the linker puts this module's segments, and the values of the imports. */
  datatype Placement = Placement(base: bv4 -> nat, imports: string -> nat)

  function BaseOf(t: Tag, p: Placement): nat {
    if t.rel then p.base(t.seg) else 0
  }

  /** What the linker adds to a tagged offset: the base of its segment, or the value
      of the imported symbol. */
  function Adjustment(v: Value, p: Placement): nat {
    if v.tag.rel && v.tag.imp then (if v.sym.Some? then p.imports(v.sym.value) else 0)
    else BaseOf(v.tag, p)
  }

  function Final(v: Value, p: Placement): int {
    Wrap(v.offset + Adjustment(v, p))
  }

  /** The expression with every label replaced by its final address. */
  function Meaning(e: Expr, c: Context, p: Placement): int {
    match e
    case Number(n) => n
    case Here => Wrap(c.lc + BaseOf(c.lcTag, p))
    case Id(x) =>
      if c.Look(x).tag.imp then Wrap(p.imports(x))
      else Wrap(c.Look(x).value + BaseOf(c.Look(x).tag, p))
    case Neg(a) => Wrap(-Meaning(a, c, p))
    case Not(a) => W - 1 - Meaning(a, c, p)
    case Bin(op, a, b) => Arith(op, Meaning(a, c, p), Meaning(b, c, p))
  }

  // ---- soundness

  /** Imports are relocatable. Where there are relocatable labels (`mixed`) absolute
      values carry segment 0; where there are none only imports are relocatable. */
  predicate GoodTag(t: Tag, mixed: bool) {
    && (t.imp ==> t.rel)
    && (if mixed then !t.rel ==> t.seg == 0 else t.rel ==> t.imp)
  }

  predicate InRange(x: int) {
    0 <= x < W
  }

  /** What the assembler keeps: values are offsets, labels and variables are not
      imported, and a name that is neither is undefined unless it is imported. */
  ghost predicate Sane(c: Context) {
    && InRange(c.lc) && !c.lcTag.imp
    && (forall x :: c.Look(x).reserved || SaneSymbol(c.Look(x)))
  }

  predicate SaneSymbol(s: Symbol) {
    InRange(s.value) && (if s.known then !s.tag.imp else s.tag.imp || s.tag.und)
  }

  /** Usable in the last pass. */
  predicate Usable(s: Symbol) {
    !s.reserved && (s.tag.imp || !s.tag.und)
  }

  /** A tag that relocates by a segment. */
  predicate Moves(t: Tag) {
    t.rel && !t.imp
  }

  ghost predicate Mixed(c: Context) {
    || (!c.lcTag.und && Moves(c.lcTag))
    || exists x :: Usable(c.Look(x)) && Moves(c.Look(x).tag)
  }

  /** Every tag that an operand can pick up in the last pass is good. */
  ghost predicate WellTagged(c: Context) {
    && (!c.lcTag.und ==> GoodTag(c.lcTag, Mixed(c)))
    && (forall x :: Usable(c.Look(x)) ==> GoodTag(c.Look(x).tag, Mixed(c)))
  }

  predicate NumbersInRange(e: Expr) {
    match e
    case Number(n) => InRange(n)
    case Neg(a) => NumbersInRange(a)
    case Not(a) => NumbersInRange(a)
    case Bin(_, a, b) => NumbersInRange(a) && NumbersInRange(b)
    case _ => true
  }

  ghost predicate GoodValue(v: Value, mixed: bool) {
    && GoodTag(v.tag, mixed) && InRange(v.offset)
    && v.tag.imp == v.sym.Some?
  }

  lemma QuotientRange(x: int, y: int)
    requires 0 <= x && 0 < y
    ensures 0 <= x / y <= x
  {
    DivisionBounds(x, y, x / y, x % y);
  }

  lemma DivisionBounds(x: int, y: int, q: int, r: int)
    requires 0 <= x && 0 < y && x == y * q + r && 0 <= r < y
    ensures 0 <= q <= x
  {
    if q < 0 {
      Product(y, -1 - q);
      assert false;
    } else {
      Product(y - 1, q);
      assert (y - 1) * q == y * q - q;
    }
  }

  lemma ArithRange(op: Op, x: int, y: int)
    requires InRange(x) && InRange(y)
    ensures InRange(Arith(op, x, y))
  {
    match op
    case Or => Bits.LowBitsRange(OrFn, x, y, 64); Bits.LongIsPow2();
    case And => Bits.LowBitsRange(AndFn, x, y, 64); Bits.LongIsPow2();
    case Div => if y != 0 { QuotientRange(x, y); }
    case Shr => if y < 64 { QuotientRange(x, Pow2(y)); }
    case _ =>
  }

  lemma WrapAdds(a: int, b: int)
    ensures Wrap(Wrap(a) + b) == Wrap(a + b)
  {
    assert Wrap(a) == a - W * (a / W);
    WrapShifts(a + b, -(a / W));
  }

  lemma WrapShifts(a: int, k: int)
    ensures Wrap(a + W * k) == Wrap(a)
  {
  }

  lemma SumSound(l: Value, r: Value, m: bool, p: Placement)
    requires GoodValue(l, m) && GoodValue(r, m) && !Combine(Add, l, r, true).bad
    ensures GoodValue(Combine(Add, l, r, true), m)
    ensures Final(Combine(Add, l, r, true), p) == Wrap(Final(l, p) + Final(r, p))
  {
    var v := Combine(Add, l, r, true);
    var i, j := Adjustment(l, p), Adjustment(r, p);
    assert Adjustment(v, p) == i + j;
    WrapSum(l.offset, i, r.offset, j);
  }

  lemma WrapSum(a: int, i: int, b: int, j: int)
    ensures Wrap(Wrap(a + b) + (i + j)) == Wrap(Wrap(a + i) + Wrap(b + j))
  {
    WrapAdds(a + b, i + j);
    WrapAdds(a + i, Wrap(b + j));
    WrapAdds(b + j, a + i);
  }

  lemma DifferenceSound(l: Value, r: Value, m: bool, p: Placement)
    requires GoodValue(l, m) && GoodValue(r, m) && !Combine(Sub, l, r, true).bad
    ensures GoodValue(Combine(Sub, l, r, true), m)
    ensures Final(Combine(Sub, l, r, true), p) == Wrap(Final(l, p) - Final(r, p))
  {
    var v := Combine(Sub, l, r, true);
    var i, j := Adjustment(l, p), Adjustment(r, p);
    assert Adjustment(v, p) == i - j;
    WrapDifference(l.offset, i, r.offset, j);
  }

  lemma WrapDifference(a: int, i: int, b: int, j: int)
    ensures Wrap(Wrap(a - b) + (i - j)) == Wrap(Wrap(a + i) - Wrap(b + j))
  {
    WrapAdds(a - b, i - j);
    WrapAdds(a + i, -Wrap(b + j));
    WrapNegates(b + j, a + i);
  }

  lemma WrapNegates(a: int, b: int)
    ensures Wrap(b - Wrap(a)) == Wrap(b - a)
  {
    assert Wrap(a) == a - W * (a / W);
    WrapShifts(b - a, a / W);
  }

  lemma SameAddress(x: int, y: int, base: int)
    requires InRange(x) && InRange(y) && Wrap(x + base) == Wrap(y + base)
    ensures x == y
  {
    assert Wrap(x) == Wrap(y) by {
      WrapAdds(x + base, -base);
      WrapAdds(y + base, -base);
    }
  }

  /** Ordering comparisons see addresses that have not wrapped. */
  ghost predicate InOrder(op: Op, l: Value, r: Value, p: Placement) {
    op == Lt || op == Gt ==>
      InRange(l.offset + Adjustment(l, p)) && InRange(r.offset + Adjustment(r, p))
  }

  lemma ComparisonTags(op: Op, l: Value, r: Value, o: int, m: bool, p: Placement)
    requires (op == Eq || op == Lt || op == Gt) && (o == 0 || o == W - 1)
    requires GoodValue(l, m) && GoodValue(r, m)
    requires !CheckTags(op, l, r, Both(l, r, o, Join(l.tag, r.tag)), true).bad
    ensures GoodValue(CheckTags(op, l, r, Both(l, r, o, Join(l.tag, r.tag)), true), m)
    ensures Final(CheckTags(op, l, r, Both(l, r, o, Join(l.tag, r.tag)), true), p) == o
    ensures Adjustment(l, p) == Adjustment(r, p)
  {
  }

  /** Moving both sides by the same amount does not change how they compare. */
  lemma ComparisonMoves(op: Op, x: int, y: int, base: nat)
    requires op == Eq || op == Lt || op == Gt
    requires InRange(x) && InRange(y) && (op != Eq ==> InRange(x + base) && InRange(y + base))
    ensures Arith(op, x, y) == Arith(op, Wrap(x + base), Wrap(y + base))
  {
    if op == Eq {
      if Wrap(x + base) == Wrap(y + base) {
        SameAddress(x, y, base);
      }
    } else {
      assert Wrap(x + base) == x + base && Wrap(y + base) == y + base;
    }
  }

  lemma ComparisonSound(op: Op, l: Value, r: Value, m: bool, p: Placement)
    requires op == Eq || op == Lt || op == Gt
    requires GoodValue(l, m) && GoodValue(r, m) && !Combine(op, l, r, true).bad && InOrder(op, l, r, p)
    ensures GoodValue(Combine(op, l, r, true), m)
    ensures Final(Combine(op, l, r, true), p) == Arith(op, Final(l, p), Final(r, p))
  {
    ComparisonTags(op, l, r, Arith(op, l.offset, r.offset), m, p);
    ComparisonMoves(op, l.offset, r.offset, Adjustment(l, p));
  }

  lemma AbsoluteFinal(v: Value, p: Placement)
    requires !v.tag.rel && InRange(v.offset)
    ensures Final(v, p) == v.offset
  {
  }

  lemma AbsoluteTags(op: Op, l: Value, r: Value, joined: Value, m: bool)
    requires op !in {Add, Sub, Eq, Lt, Gt}
    requires GoodValue(l, m) && GoodValue(r, m) && !CheckTags(op, l, r, joined, true).bad && InRange(joined.offset)
    requires joined == Both(l, r, joined.offset, Join(l.tag, r.tag))
    ensures !l.tag.rel && !r.tag.rel
    ensures GoodValue(CheckTags(op, l, r, joined, true), m)
    ensures CheckTags(op, l, r, joined, true).offset == joined.offset && !CheckTags(op, l, r, joined, true).tag.rel
  {
  }

  lemma ProductSound(op: Op, l: Value, r: Value, o: int, p: Placement, m: bool)
    requires op !in {Add, Sub, Eq, Lt, Gt} && o == Arith(op, l.offset, r.offset)
    requires GoodValue(l, m) && GoodValue(r, m) && !Combine(op, l, r, true).bad
    ensures GoodValue(Combine(op, l, r, true), m)
    ensures Final(l, p) == l.offset && Final(r, p) == r.offset && Final(Combine(op, l, r, true), p) == o
  {
    ArithRange(op, l.offset, r.offset);
    AbsoluteTags(op, l, r, Both(l, r, o, Join(l.tag, r.tag)), m);
    AbsoluteFinal(l, p);
    AbsoluteFinal(r, p);
    AbsoluteFinal(Combine(op, l, r, true), p);
  }

  lemma CombineSound(op: Op, l: Value, r: Value, m: bool, p: Placement)
    requires GoodValue(l, m) && GoodValue(r, m) && !Combine(op, l, r, true).bad && InOrder(op, l, r, p)
    ensures GoodValue(Combine(op, l, r, true), m)
    ensures Final(Combine(op, l, r, true), p) == Arith(op, Final(l, p), Final(r, p))
  {
    if op == Add {
      SumSound(l, r, m, p);
    } else if op == Sub {
      DifferenceSound(l, r, m, p);
    } else if op == Eq || op == Lt || op == Gt {
      ComparisonSound(op, l, r, m, p);
    } else {
      ProductSound(op, l, r, Arith(op, l.offset, r.offset), p, m);
    }
  }

  lemma NegationSound(v: Value, m: bool, p: Placement)
    requires GoodValue(v, m) && !v.tag.rel
    ensures GoodValue(v.(offset := Wrap(-v.offset)), m) && GoodValue(v.(offset := W - 1 - v.offset), m)
    ensures Final(v.(offset := Wrap(-v.offset)), p) == Wrap(-Final(v, p))
    ensures Final(v.(offset := W - 1 - v.offset), p) == W - 1 - Final(v, p)
  {
    AbsoluteFinal(v, p);
    AbsoluteFinal(v.(offset := Wrap(-v.offset)), p);
    AbsoluteFinal(v.(offset := W - 1 - v.offset), p);
  }

  lemma LeafSound(e: Expr, c: Context, p: Placement)
    requires e.Here? || e.Id?
    requires c.last && Sane(c) && WellTagged(c) && !Eval(e, c).bad
    ensures GoodValue(Eval(e, c), Mixed(c)) && Final(Eval(e, c), p) == Meaning(e, c, p)
  {
    if e.Id? {
      assert SaneSymbol(c.Look(e.name)) && Usable(c.Look(e.name));
    }
  }

  /** Ordering comparisons anywhere in the expression see unwrapped addresses. */
  ghost predicate Unwrapped(e: Expr, c: Context, p: Placement) {
    match e
    case Neg(a) => Unwrapped(a, c, p)
    case Not(a) => Unwrapped(a, c, p)
    case Bin(op, a, b) => Unwrapped(a, c, p) && Unwrapped(b, c, p) && InOrder(op, Eval(a, c), Eval(b, c), p)
    case _ => true
  }

  /** An accepted operand is right wherever the linker puts segments and imports. */
  lemma {:induction false} OperandIsSound(e: Expr, c: Context, p: Placement)
    requires c.last && Sane(c) && WellTagged(c) && NumbersInRange(e) && Unwrapped(e, c, p)
    requires !Eval(e, c).bad
    ensures GoodValue(Eval(e, c), Mixed(c))
    ensures Final(Eval(e, c), p) == Meaning(e, c, p)
  {
    match e
    case Number(_) =>
    case Here => LeafSound(e, c, p);
    case Id(_) => LeafSound(e, c, p);
    case Neg(a) =>
      OperandIsSound(a, c, p);
      UnarySound(e, c, p);
    case Not(a) =>
      OperandIsSound(a, c, p);
      UnarySound(e, c, p);
    case Bin(op, a, b) =>
      OperandIsSound(a, c, p);
      OperandIsSound(b, c, p);
      CombineSound(op, Eval(a, c), Eval(b, c), Mixed(c), p);
  }

  lemma UnarySound(e: Expr, c: Context, p: Placement)
    requires e.Neg? || e.Not?
    requires c.last && !Eval(e, c).bad && GoodValue(Eval(e.a, c), Mixed(c)) && Final(Eval(e.a, c), p) == Meaning(e.a, c, p)
    ensures GoodValue(Eval(e, c), Mixed(c)) && Final(Eval(e, c), p) == Meaning(e, c, p)
  {
    NegationSound(Eval(e.a, c), Mixed(c), p);
  }

  // ---- the condition is exact

  /** The operand is accepted in the last pass, yet some placement breaks it. */
  ghost predicate Miscompiled(e: Expr, c: Context, p: Placement) {
    && NumbersInRange(e) && !Eval(e, c).bad && Unwrapped(e, c, p)
    && Final(Eval(e, c), p) != Meaning(e, c, p)
  }

  /** A name or the location counter, usable as an operand, and its tag. */
  predicate Leaf(e: Expr, c: Context) {
    match e
    case Here => !c.lcTag.und
    case Id(x) => Usable(c.Look(x))
    case _ => false
  }

  function LeafTag(e: Expr, c: Context): Tag
    requires Leaf(e, c)
  {
    if e.Here? then c.lcTag else c.Look(e.name).tag
  }

  lemma AbsoluteImportBreaks(e: Expr, c: Context, p: Placement)
    requires c.last && Sane(c) && Leaf(e, c) && LeafTag(e, c).imp && !LeafTag(e, c).rel
    requires e.Id? && p.imports(e.name) == 1
    ensures Miscompiled(e, c, p)
  {
  }

  lemma StraySegmentBreaks(x: Expr, y: Expr, c: Context, p: Placement)
    requires c.last && Sane(c) && Leaf(x, c) && Leaf(y, c)
    requires !LeafTag(x, c).rel && !LeafTag(x, c).imp && LeafTag(x, c).seg != 0 && Moves(LeafTag(y, c))
    requires p.base(LeafTag(y, c).seg) == 1 && p.base(LeafTag(y, c).seg ^ LeafTag(x, c).seg) == 0
    ensures Miscompiled(Bin(Sub, y, x), c, p)
  {
    LeafValue(x, c, p);
    LeafValue(y, c, p);
    StrayDifference(Eval(y, c), Eval(x, c), p);
    DifferenceMeaning(y, x, c, p);
  }

  lemma DifferenceMeaning(y: Expr, x: Expr, c: Context, p: Placement)
    ensures Meaning(Bin(Sub, y, x), c, p) == Wrap(Meaning(y, c, p) - Meaning(x, c, p))
    ensures Eval(Bin(Sub, y, x), c) == Combine(Sub, Eval(y, c), Eval(x, c), c.last)
  {
  }

  lemma LeafValue(e: Expr, c: Context, p: Placement)
    requires c.last && Sane(c) && Leaf(e, c) && !LeafTag(e, c).imp
    ensures !Eval(e, c).bad && Eval(e, c).tag.rel == LeafTag(e, c).rel && !Eval(e, c).tag.imp
    ensures Eval(e, c).tag.seg == LeafTag(e, c).seg && InRange(Eval(e, c).offset)
    ensures Meaning(e, c, p) == Final(Eval(e, c), p)
  {
  }

  lemma StrayDifference(y: Value, x: Value, p: Placement)
    requires InRange(x.offset) && InRange(y.offset) && !x.bad && !y.bad
    requires !x.tag.rel && !x.tag.imp && y.tag.rel && !y.tag.imp
    requires p.base(y.tag.seg) == 1 && p.base(y.tag.seg ^ x.tag.seg) == 0
    ensures !Combine(Sub, y, x, true).bad
    ensures Final(Combine(Sub, y, x, true), p) != Wrap(Final(y, p) - Final(x, p))
  {
    AbsoluteFinal(x, p);
    var d := y.offset - x.offset;
    WrapAdds(d, 0);
    WrapAdds(y.offset + 1, -x.offset);
    assert Final(Combine(Sub, y, x, true), p) == Wrap(d);
    assert Wrap(Final(y, p) - Final(x, p)) == Wrap(d + 1);
  }

  lemma XorMoves(a: bv4, b: bv4)
    requires b != 0
    ensures a ^ b != a
  {
  }

  /** Tags stay right for every operand and placement exactly in a well-tagged context. */
  lemma SoundExactlyWhenWellTagged(c: Context)
    requires c.last && Sane(c)
    ensures WellTagged(c) <==> forall e, p :: !Miscompiled(e, c, p)
  {
    if WellTagged(c) {
      forall e, p
        ensures !Miscompiled(e, c, p)
      {
        if NumbersInRange(e) && !Eval(e, c).bad && Unwrapped(e, c, p) {
          OperandIsSound(e, c, p);
        }
      }
    } else {
      BadLeafBreaks(BadLeaf(c), c);
    }
  }

  ghost function BadLeaf(c: Context): (e: Expr)
    requires !WellTagged(c)
    ensures Leaf(e, c) && !GoodTag(LeafTag(e, c), Mixed(c))
  {
    if !c.lcTag.und && !GoodTag(c.lcTag, Mixed(c)) then Here
    else
      var x :| Usable(c.Look(x)) && !GoodTag(c.Look(x).tag, Mixed(c));
      Id(x)
  }

  lemma BadLeafBreaks(x: Expr, c: Context)
    requires c.last && Sane(c) && Leaf(x, c) && !GoodTag(LeafTag(x, c), Mixed(c))
    ensures exists e, p :: Miscompiled(e, c, p)
  {
    var t := LeafTag(x, c);
    if t.imp {
      AbsoluteImportBreaks(x, c, Placement(_ => 0, _ => 1));
    } else {
      assert Mixed(c) && !t.rel;
      var y := MovingLeaf(c);
      var s := LeafTag(y, c).seg;
      XorMoves(s, t.seg);
      StraySegmentBreaks(x, y, c, Placement(g => if g == s then 1 else 0, _ => 0));
    }
  }

  ghost function MovingLeaf(c: Context): (e: Expr)
    requires Mixed(c)
    ensures Leaf(e, c) && Moves(LeafTag(e, c))
  {
    if !c.lcTag.und && Moves(c.lcTag) then Here
    else
      var x :| Usable(c.Look(x)) && Moves(c.Look(x).tag);
      Id(x)
  }
}
