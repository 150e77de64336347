/** The recursive-descent reader of operands (as/express.c:84-325). It never builds a
    tree: it updates `lastexp` and the symbol table while it reads. Each routine is
    proved to leave there the value of the tree that its tokens derive. */
module OperandReader {
  import opened Prelude
  import opened AsmExpression

  datatype Token =
    | NumberTok(n: int)
    | NameTok(name: string)
    | StarTok
    | OpTok(op: Op)
    | NotTok
    | OpenTok
    | CloseTok
    | EndTok

  // ---- grammar

  predicate IsMultiplying(op: Op) {
    op in {Mul, Div, And, Shl, Shr}
  }

  predicate IsAdding(op: Op) {
    op in {Add, Sub, Or}
  }

  predicate IsComparing(op: Op) {
    op in {Eq, Lt, Gt}
  }

  /** A star is the location counter where a factor starts, and a product elsewhere. */
  predicate Spells(t: Token, op: Op) {
    if op == Mul then t.StarTok? else t == OpTok(op)
  }

  /** factor = number | name | * | ( expression ) | ! factor | + factor | - factor */
  ghost predicate IsFactor(ts: seq<Token>, e: Expr)
    decreases |ts|, 0
  {
    |ts| > 0 &&
    match ts[0]
    case NumberTok(n) => |ts| == 1 && e == Number(n)
    case NameTok(x) => |ts| == 1 && e == Id(x)
    case StarTok => |ts| == 1 && e == Here
    case NotTok => e.Not? && IsFactor(ts[1..], e.a)
    case OpTok(op) => (op == Add && IsFactor(ts[1..], e)) || (op == Sub && e.Neg? && IsFactor(ts[1..], e.a))
    case OpenTok => |ts| > 1 && ts[|ts| - 1] == CloseTok && IsExpression(ts[1..|ts| - 1], e)
    case _ => false
  }

  /** The tokens split at k into two sides and the operator of the tree. */
  predicate SplitsAt(ts: seq<Token>, e: Expr, k: int) {
    0 <= k < |ts| && e.Bin? && Spells(ts[k], e.op)
  }

  /** term = factor { (*|/|&|<<|>>) factor } */
  ghost predicate IsTerm(ts: seq<Token>, e: Expr)
    decreases |ts|, 1
  {
    || IsFactor(ts, e)
    || exists k :: SplitsAt(ts, e, k) && IsMultiplying(e.op) && IsTerm(ts[..k], e.a) && IsFactor(ts[k + 1..], e.b)
  }

  /** simple = [term] { (+|-|\) term }, where a missing first term is zero before a sign */
  ghost predicate IsSimple(ts: seq<Token>, e: Expr)
    decreases |ts|, 2
  {
    || IsTerm(ts, e)
    || exists k :: SplitsAt(ts, e, k) && IsAdding(e.op) && IsLeft(ts[..k], e.op, e.a) && IsTerm(ts[k + 1..], e.b)
  }

  ghost predicate IsLeft(ts: seq<Token>, op: Op, e: Expr)
    decreases |ts|, 3
  {
    if ts == [] then e == Number(0) && op != Or else IsSimple(ts, e)
  }

  /** expression = simple [ (=|<|>) simple ] */
  ghost predicate IsExpression(ts: seq<Token>, e: Expr)
    decreases |ts|, 4
  {
    || IsSimple(ts, e)
    || exists k :: SplitsAt(ts, e, k) && IsComparing(e.op) && IsSimple(ts[..k], e.a) && IsSimple(ts[k + 1..], e.b)
  }

  // ---- forward marks

  /** Reading a name that is not a label yet marks it as used before its definition. */
  function Mark(c: Context, x: string): Context {
    if c.Look(x).known || c.Look(x).reserved then c
    else c.(symbols := c.symbols[x := c.Look(x).(tag := c.Look(x).tag.(fwd := true))])
  }

  function MarkAll(e: Expr, c: Context): Context {
    match e
    case Id(x) => Mark(c, x)
    case Neg(a) => MarkAll(a, c)
    case Not(a) => MarkAll(a, c)
    case Bin(_, a, b) => MarkAll(b, MarkAll(a, c))
    case _ => c
  }

  /** The second context differs from the first in forward marks of undefined names. */
  ghost predicate Alike(c: Context, d: Context) {
    && d == c.(symbols := d.symbols)
    && forall x :: AlikeSymbol(c.Look(x), d.Look(x))
  }

  predicate AlikeSymbol(s: Symbol, t: Symbol) {
    s == t || (!s.known && t == s.(tag := s.tag.(fwd := true)))
  }

  lemma {:induction false} MarksAreAlike(e: Expr, c: Context)
    ensures Alike(c, MarkAll(e, c))
    decreases e
  {
    match e
    case Neg(a) => MarksAreAlike(a, c);
    case Not(a) => MarksAreAlike(a, c);
    case Bin(_, a, b) =>
      MarksAreAlike(a, c);
      MarksAreAlike(b, MarkAll(a, c));
      AlikeChains(c, MarkAll(a, c), MarkAll(e, c));
    case Id(_) =>
    case Here =>
    case Number(_) =>
  }

  lemma AlikeChains(c: Context, d: Context, e: Context)
    requires Alike(c, d) && Alike(d, e)
    ensures Alike(c, e)
  {
    forall x
      ensures AlikeSymbol(c.Look(x), e.Look(x))
    {
      assert AlikeSymbol(c.Look(x), d.Look(x)) && AlikeSymbol(d.Look(x), e.Look(x));
    }
  }

  /** Marks do not change what an operand evaluates to. */
  lemma {:induction false} MarksKeepValues(e: Expr, c: Context, d: Context)
    requires Alike(c, d)
    ensures Eval(e, c) == Eval(e, d)
    decreases e
  {
    match e
    case Id(x) => assert AlikeSymbol(c.Look(x), d.Look(x));
    case Neg(a) => MarksKeepValues(a, c, d);
    case Not(a) => MarksKeepValues(a, c, d);
    case Bin(_, a, b) =>
      MarksKeepValues(a, c, d);
      MarksKeepValues(b, c, d);
    case Here =>
    case Number(_) =>
  }

  // ---- the reader

  /** Two values that agree unless an error was reported for them. */
  predicate SameValue(v: Value, w: Value) {
    v.bad == w.bad && (v.bad || v == w)
  }

  lemma CombineSame(op: Op, l: Value, r: Value, l': Value, r': Value, last: bool)
    requires SameValue(l, l') && SameValue(r, r')
    ensures SameValue(Combine(op, l, r, last), Combine(op, l', r', last))
  {
  }

  class Reader {
    const tokens: seq<Token>
    var pos: nat
    var context: Context
    var lastexp: Value
    /** A factor or a closing parenthesis was missing. */
    var garbled: bool

    ghost predicate Valid()
      reads this
    {
      pos <= |tokens|
    }

    constructor (tokens: seq<Token>, context: Context)
      ensures Valid() && this.tokens == tokens && this.context == context && pos == 0 && !garbled
    {
      this.tokens, this.pos, this.context, this.garbled := tokens, 0, context, false;
      this.lastexp := Value(0, ABSOLUTE, None, false);
    }

    function Sym(): Token
      requires Valid()
      reads this
    {
      if pos < |tokens| then tokens[pos] else EndTok
    }

    /** The tokens read since `from`. */
    ghost function Since(from: nat): seq<Token>
      requires Valid()
      reads this
    {
      if from <= pos then tokens[from..pos] else []
    }

    /** What was read is e, and its value is in lastexp. */
    twostate predicate Holds(e: Expr)
      reads this
    {
      && context == MarkAll(e, old(context))
      && SameValue(lastexp, Eval(e, old(context)))
    }

    twostate predicate Advances()
      requires old(Valid())
      reads this
    {
      Valid() && old(pos) <= pos && (old(garbled) ==> garbled)
    }

    method GetSym()
      requires Valid()
      modifies this`pos
      ensures Valid() && pos == if old(pos) < |tokens| then old(pos) + 1 else old(pos)
    {
      if pos < |tokens| {
        pos := pos + 1;
      }
    }

    method Name(x: string)
      requires Valid() && Sym() == NameTok(x)
      modifies this
      ensures Advances() && garbled == old(garbled) && Since(old(pos)) == [NameTok(x)] && Holds(Id(x))
    {
      var s := context.Look(x);
      if s.reserved {
        lastexp := lastexp.(tag := UNDEFINED, bad := true);
      } else {
        context := Mark(context, x);
        lastexp := Value(s.value, context.Look(x).tag, if s.known then None else Some(x), false);
        if !context.last {
          lastexp := lastexp.(tag := lastexp.tag.(imp := false));
        } else if lastexp.tag.imp {
          lastexp := lastexp.(offset := 0);
        } else if lastexp.tag.und {
          lastexp := lastexp.(tag := UNDEFINED, bad := true);
        }
      }
      GetSym();
    }

    /** One token was read before e. */
    lemma PrefixRead(start: nat)
      requires Valid() && start < pos
      ensures Since(start)[0] == tokens[start] && Since(start)[1..] == tokens[start + 1..pos]
    {
      SliceOfSlice(tokens, start, pos, 1, pos - start);
    }

    lemma InsideRead(start: nat)
      requires Valid() && start + 1 < pos
      ensures Since(start)[0] == tokens[start] && Since(start)[pos - start - 1] == tokens[pos - 1]
      ensures Since(start)[1..pos - start - 1] == tokens[start + 1..pos - 1]
    {
      SliceOfSlice(tokens, start, pos, 1, pos - start - 1);
    }

    method Factor() returns (ghost e: Expr)
      requires Valid()
      modifies this
      ensures Advances()
      ensures !garbled ==> IsFactor(Since(old(pos)), e) && Holds(e)
      decreases |tokens| - pos, 0
    {
      e := Number(0);
      match Sym()
      case NumberTok(n) =>
        lastexp := Value(n, ABSOLUTE, None, false);
        e := Number(n);
        GetSym();
      case NameTok(x) =>
        Name(x);
        e := Id(x);
      case OpenTok =>
        GetSym();
        e := Expression();
        if Sym().CloseTok? {
          GetSym();
          InsideRead(old(pos));
        } else {
          garbled := true;
        }
      case NotTok => e := Prefixed(Sym());
      case StarTok =>
        lastexp := EvalHere(context);
        e := Here;
        GetSym();
      case OpTok(op) =>
        if op == Add || op == Sub {
          e := Prefixed(Sym());
        } else {
          garbled := true;
        }
      case CloseTok => garbled := true;
      case EndTok => garbled := true;
    }

    /** A factor that starts with `!`, `+` or `-`. */
    method Prefixed(t: Token) returns (ghost e: Expr)
      requires Valid() && Sym() == t && (t == NotTok || t == OpTok(Add) || t == OpTok(Sub))
      modifies this
      ensures Advances()
      ensures !garbled ==> IsFactor(Since(old(pos)), e) && Holds(e)
      decreases |tokens| - pos - 1, 1
    {
      GetSym();
      e := Factor();
      PrefixRead(old(pos));
      MarksAreAlike(e, old(context));
      ghost var v := lastexp;
      if t != OpTok(Add) {
        lastexp := MustBeAbsolute(lastexp, context.last);
      }
      if t == NotTok {
        lastexp := lastexp.(offset := W - 1 - lastexp.offset);
        e := Not(e);
      } else if t == OpTok(Sub) {
        lastexp := lastexp.(offset := Wrap(-lastexp.offset));
        e := Neg(e);
      }
    }

    method Term() returns (ghost e: Expr)
      requires Valid()
      modifies this
      ensures Advances()
      ensures !garbled ==> IsTerm(Since(old(pos)), e) && Holds(e)
      ensures !IsOperator(Sym(), IsMultiplying)
      decreases |tokens| - pos, 2
    {
      e := Factor();
      while IsOperator(Sym(), IsMultiplying)
        invariant Advances()
        invariant !garbled ==> IsTerm(Since(old(pos)), e) && Holds(e)
        decreases |tokens| - pos
      {
        e := MultiplyFactor(old(pos), old(context), e);
      }
    }

    /** Both sides of an operator were read: combine them and check their tags. */
    method Operate(op: Op, left: Value, ghost c: Context, ghost d: Context, ghost l: Expr, ghost r: Expr)
      requires !garbled ==> d == MarkAll(l, c) && SameValue(left, Eval(l, c))
      requires !garbled ==> context == MarkAll(r, d) && SameValue(lastexp, Eval(r, d))
      modifies this`lastexp
      ensures !garbled ==> context == MarkAll(Bin(op, l, r), c) && SameValue(lastexp, Eval(Bin(op, l, r), c))
    {
      ghost var right := lastexp;
      lastexp := Combine(op, left, lastexp, context.last);
      if !garbled {
        StepHolds(c, d, op, l, r, left, right);
      }
    }

    /** A multiplying operator and a factor after l, which was read from `start` on. */
    method MultiplyFactor(ghost start: nat, ghost c: Context, ghost l: Expr) returns (ghost e: Expr)
      requires Valid() && start <= pos && IsOperator(Sym(), IsMultiplying)
      requires !garbled ==> IsTerm(Since(start), l)
      requires !garbled ==> context == MarkAll(l, c) && SameValue(lastexp, Eval(l, c))
      modifies this
      ensures Advances() && old(pos) < pos
      ensures !garbled ==> IsTerm(Since(start), e)
      ensures !garbled ==> context == MarkAll(e, c) && SameValue(lastexp, Eval(e, c))
      decreases |tokens| - pos, 1
    {
      var op, left := OperatorOf(Sym()), lastexp;
      GetSym();
      ghost var r := Factor();
      Operate(op, left, c, old(context), l, r);
      e := Bin(op, l, r);
      if !garbled {
        SinceSplits(start, old(pos));
      }
    }

    method Simple() returns (ghost e: Expr)
      requires Valid()
      modifies this
      ensures Advances()
      ensures !garbled ==> IsSimple(Since(old(pos)), e) && Holds(e)
      ensures !IsOperator(Sym(), IsMultiplying) && !IsOperator(Sym(), IsAdding)
      decreases |tokens| - pos, 4
    {
      if Sym() == OpTok(Add) || Sym() == OpTok(Sub) {
        lastexp := Value(0, ABSOLUTE, None, false);
        e := AddTerm(pos, context, Number(0));
      } else {
        e := Term();
      }
      while IsOperator(Sym(), IsAdding)
        invariant Advances()
        invariant !garbled ==> IsSimple(Since(old(pos)), e) && Holds(e)
        invariant !IsOperator(Sym(), IsMultiplying)
        decreases |tokens| - pos
      {
        if !garbled {
          SimpleIsNonempty(Since(old(pos)), e);
        }
        e := AddTerm(old(pos), old(context), e);
      }
    }

    /** An adding operator and a term after l, which was read from `start` on. */
    method AddTerm(ghost start: nat, ghost c: Context, ghost l: Expr) returns (ghost e: Expr)
      requires Valid() && start <= pos && IsOperator(Sym(), IsAdding)
      requires !garbled ==> IsLeft(Since(start), OperatorOf(Sym()), l)
      requires !garbled ==> context == MarkAll(l, c) && SameValue(lastexp, Eval(l, c))
      modifies this
      ensures Advances() && old(pos) < pos && !IsOperator(Sym(), IsMultiplying)
      ensures !garbled ==> IsSimple(Since(start), e)
      ensures !garbled ==> context == MarkAll(e, c) && SameValue(lastexp, Eval(e, c))
      decreases |tokens| - pos, 3
    {
      var op, left := OperatorOf(Sym()), lastexp;
      GetSym();
      ghost var r := Term();
      Operate(op, left, c, old(context), l, r);
      e := Bin(op, l, r);
      if !garbled {
        SinceSplits(start, old(pos));
        SimpleGrows(Since(start), old(pos) - start, e);
      }
    }

    method Expression() returns (ghost e: Expr)
      requires Valid()
      modifies this
      ensures Advances()
      ensures !garbled ==> IsExpression(Since(old(pos)), e) && Holds(e)
      ensures !IsOperator(Sym(), IsMultiplying) && !IsOperator(Sym(), IsAdding)
      decreases |tokens| - pos, 5
    {
      e := Simple();
      if IsOperator(Sym(), IsComparing) {
        ghost var at, l, c := pos, e, context;
        var op, left := OperatorOf(Sym()), lastexp;
        GetSym();
        ghost var r := Simple();
        Operate(op, left, old(context), c, l, r);
        e := Bin(op, l, r);
        if !garbled {
          SinceSplits(old(pos), at);
        }
      }
    }

    lemma SinceSplits(start: nat, at: nat)
      requires Valid() && start <= at < pos
      ensures Since(start)[..at - start] == tokens[start..at]
      ensures Since(start)[at - start] == tokens[at]
      ensures Since(start)[at - start + 1..] == tokens[at + 1..pos]
    {
      SliceOfSlice(tokens, start, pos, 0, at - start);
      SliceOfSlice(tokens, start, pos, at - start + 1, pos - start);
    }
  }

  lemma SimpleIsNonempty(ts: seq<Token>, e: Expr)
    ensures IsSimple(ts, e) ==> ts != []
  {
    assert IsFactor(ts, e) ==> ts != [];
    assert IsTerm(ts, e) ==> ts != [];
  }

  lemma SimpleGrows(ts: seq<Token>, k: nat, e: Expr)
    requires SplitsAt(ts, e, k) && IsAdding(e.op) && IsLeft(ts[..k], e.op, e.a) && IsTerm(ts[k + 1..], e.b)
    ensures IsSimple(ts, e)
  {
  }

  predicate IsOperator(t: Token, kind: Op -> bool) {
    (t.StarTok? || (t.OpTok? && t.op != Mul)) && kind(OperatorOf(t))
  }

  function OperatorOf(t: Token): Op {
    if t.OpTok? then t.op else Mul
  }

  /** The two sides were read one after the other, and their values combined. */
  lemma StepHolds(c0: Context, c1: Context, op: Op, l: Expr, r: Expr, left: Value, right: Value)
    requires c1 == MarkAll(l, c0) && SameValue(left, Eval(l, c0)) && SameValue(right, Eval(r, c1))
    ensures SameValue(Combine(op, left, right, MarkAll(r, c1).last), Eval(Bin(op, l, r), c0))
  {
    MarksAreAlike(l, c0);
    MarksAreAlike(r, c1);
    MarksKeepValues(r, c0, c1);
    CombineSame(op, left, right, Eval(l, c0), Eval(r, c0), c0.last);
  }
}
