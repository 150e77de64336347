/** The two passes of as01 give every line the same size and every label the same
    address, because a name that is used before its definition stays marked
    (as/mops.c:106-121, as/express.c:259-288, as/assemble.c:145-176). */
module TwoPass {
  import opened Prelude
  import opened AsmExpression
  import opened OperandReader
  import opened Assembly

  function Names(e: Expr): set<string> {
    match e
    case Id(x) => {x}
    case Neg(a) => Names(a)
    case Not(a) => Names(a)
    case Bin(_, a, b) => Names(a) + Names(b)
    case _ => {}
  }

  predicate NoComparison(e: Expr) {
    match e
    case Neg(a) => NoComparison(a)
    case Not(a) => NoComparison(a)
    case Bin(op, a, b) => op !in {Eq, Lt, Gt} && NoComparison(a) && NoComparison(b)
    case _ => true
  }

  // ---- values in the two passes

  /** A name that both passes see alike. */
  predicate Settled(s: Symbol, t: Symbol) {
    s == t && s.known && !s.tag.und && !s.tag.imp
  }

  /** A name that both passes see alike, or both see as used before its definition. */
  predicate SettledOrForward(s: Symbol, t: Symbol) {
    s.reserved == t.reserved && (s.reserved || Settled(s, t) || (TagOf(s).fwd && TagOf(t).fwd))
  }

  ghost predicate SameHere(c: Context, d: Context) {
    !c.last && d.last && c.lc == d.lc && c.lcTag == d.lcTag && !c.lcTag.und
  }

  predicate SameResult(v: Value, w: Value) {
    v.offset == w.offset && v.tag == w.tag
  }

  predicate SameOrForward(v: Value, w: Value) {
    v.tag.fwd == w.tag.fwd && (v.tag.fwd || SameResult(v, w))
  }

  lemma TagsSettled(op: Op, l: Value, r: Value, j: Value, l': Value, r': Value, j': Value)
    requires SameResult(l, l') && SameResult(r, r') && SameResult(j, j')
    ensures SameResult(CheckTags(op, l, r, j, false), CheckTags(op, l', r', j', true))
  {
  }

  lemma CombineSettled(op: Op, l: Value, r: Value, l': Value, r': Value)
    requires SameResult(l, l') && SameResult(r, r')
    ensures SameResult(Combine(op, l, r, false), Combine(op, l', r', true))
  {
    var o := Arith(op, l.offset, r.offset);
    TagsSettled(op, l, r, Both(l, r, o, Join(l.tag, r.tag)), l', r', Both(l', r', o, Join(l'.tag, r'.tag)));
  }

  lemma CombineForward(op: Op, l: Value, r: Value, last: bool)
    requires op !in {Eq, Lt, Gt} && (l.tag.fwd || r.tag.fwd)
    ensures Combine(op, l, r, last).tag.fwd
  {
  }

  lemma {:induction false} EvalSettled(e: Expr, c: Context, d: Context)
    requires SameHere(c, d) && forall x <- Names(e) :: Settled(c.Look(x), d.Look(x))
    ensures SameResult(Eval(e, c), Eval(e, d))
  {
    match e
    case Id(x) => assert x in Names(e);
    case Neg(a) => EvalSettled(a, c, d);
    case Not(a) => EvalSettled(a, c, d);
    case Bin(op, a, b) =>
      EvalSettled(a, c, d);
      EvalSettled(b, c, d);
      CombineSettled(op, Eval(a, c), Eval(b, c), Eval(a, d), Eval(b, d));
    case Here =>
    case Number(_) =>
  }

  lemma {:induction false} EvalForward(e: Expr, c: Context, d: Context)
    requires SameHere(c, d) && NoComparison(e) && forall x <- Names(e) :: SettledOrForward(c.Look(x), d.Look(x))
    ensures SameOrForward(Eval(e, c), Eval(e, d))
  {
    match e
    case Id(x) => assert x in Names(e);
    case Neg(a) => EvalForward(a, c, d);
    case Not(a) => EvalForward(a, c, d);
    case Bin(op, a, b) =>
      EvalForward(a, c, d);
      EvalForward(b, c, d);
      if Eval(a, c).tag.fwd || Eval(b, c).tag.fwd {
        CombineForward(op, Eval(a, c), Eval(b, c), false);
        CombineForward(op, Eval(a, d), Eval(b, d), true);
      } else {
        CombineSettled(op, Eval(a, c), Eval(b, c), Eval(a, d), Eval(b, d));
      }
    case Here =>
    case Number(_) =>
  }

  // ---- the first pass only adds

  function NamesIn(es: seq<Expr>): set<string> {
    if es == [] then {} else Names(es[0]) + NamesIn(es[1..])
  }

  /** Reading marks every name that is not defined, and changes nothing else. */
  ghost predicate MarksNames(names: set<string>, c: Context, d: Context) {
    forall x :: d.Look(x) == MarkedSymbol(c.Look(x), x in names)
  }

  function MarkedSymbol(s: Symbol, mentioned: bool): Symbol {
    if s.known || s.reserved || !mentioned then s else s.(tag := s.tag.(fwd := true))
  }

  lemma {:induction false} MarkAllMarks(e: Expr, c: Context)
    ensures MarksNames(Names(e), c, MarkAll(e, c))
    decreases e
  {
    match e
    case Neg(a) => MarkAllMarks(a, c);
    case Not(a) => MarkAllMarks(a, c);
    case Bin(_, a, b) =>
      MarkAllMarks(a, c);
      MarkAllMarks(b, MarkAll(a, c));
      MarksJoin(Names(a), Names(b), c, MarkAll(a, c), MarkAll(e, c));
    case Id(_) =>
    case Here =>
    case Number(_) =>
  }

  lemma MarksJoin(m: set<string>, n: set<string>, c: Context, d: Context, e: Context)
    requires MarksNames(m, c, d) && MarksNames(n, d, e)
    ensures MarksNames(m + n, c, e)
  {
    forall x
      ensures e.Look(x) == MarkedSymbol(c.Look(x), x in m + n)
    {
      assert d.Look(x) == MarkedSymbol(c.Look(x), x in m);
      assert e.Look(x) == MarkedSymbol(d.Look(x), x in n);
    }
  }

  lemma {:induction false} MarkedMarks(es: seq<Expr>, c: Context)
    ensures MarksNames(NamesIn(es), c, Marked(es, c))
    decreases |es|
  {
    if es != [] {
      MarkAllMarks(es[0], c);
      MarkedMarks(es[1..], MarkAll(es[0], c));
      MarksJoin(Names(es[0]), NamesIn(es[1..]), c, MarkAll(es[0], c), Marked(es, c));
    }
  }

  lemma MentionedMarks(es: seq<Expr>, st: State, setup: Setup, x: string)
    ensures Look(x, Mentioned(es, st, setup), setup) == MarkedSymbol(Look(x, st, setup), x in NamesIn(es))
  {
    var c := ContextOf(st, setup, false);
    MarkedMarks(es, c);
    MarkedInitial(es, c);
    assert Marked(es, c).Look(x) == MarkedSymbol(c.Look(x), x in NamesIn(es));
  }

  lemma {:induction false} MarkedInitial(es: seq<Expr>, c: Context)
    ensures Marked(es, c).initial == c.initial
    decreases |es|
  {
    if es != [] {
      MarksAreAlike(es[0], c);
      MarkedInitial(es[1..], MarkAll(es[0], c));
    }
  }

  /** What later lines of the first pass keep of a symbol. */
  predicate Kept(s: Symbol, t: Symbol) {
    && s.reserved == t.reserved
    && (s.known ==> t == s)
    && (s.tag.fwd ==> t.tag.fwd)
  }

  ghost predicate Persists(a: State, f: State, setup: Setup) {
    forall x :: Kept(Look(x, a, setup), Look(x, f, setup))
  }

  /** Labels are defined once, and imports are not labels of their own line. */
  predicate FreshLabel(l: Line, a: State, setup: Setup) {
    l.lab.Some? ==> !Look(l.lab.value, a, setup).known && l.body != Import(l.lab.value)
  }

  /** What a line of either pass makes of a symbol that is not its label. */
  predicate Touched(s: Symbol, t: Symbol) {
    s.reserved == t.reserved && (if s.known then t == s else !t.known && (s.tag.fwd ==> t.tag.fwd))
  }

  lemma OpenedKeeps(l: Line, st: State, setup: Setup, last: bool, x: string)
    requires Some(x) != l.lab
    ensures Look(x, Opened(l, st, setup, last), setup) == Look(x, st, setup)
  {
  }

  lemma DirectiveKeeps(l: Line, c: Context, st: State, setup: Setup, x: string)
    requires st.Valid() && (Some(x) != l.lab || !l.body.Equ?) && l.body != Import(x)
    ensures Look(x, Directive(l, c, st, setup), setup) == Look(x, st, setup)
  {
  }

  lemma ImportTouches(l: Line, c: Context, st: State, setup: Setup, x: string)
    requires st.Valid() && l.body == Import(x)
    ensures Touched(Look(x, st, setup), Look(x, Directive(l, c, st, setup), setup))
  {
  }

  /** The middle of a line marks its names; IMPORT and EQU do more. */
  lemma MiddleMarks(l: Line, st: State, setup: Setup, last: bool, x: string)
    requires st.Valid() && (Some(x) != l.lab || !l.body.Equ?) && l.body != Import(x)
    ensures Look(x, Middle(l, st, setup, last), setup)
         == MarkedSymbol(Look(x, st, setup), x in NamesIn(Operands(l.body)))
  {
    var c := ContextOf(st, setup, last);
    var read := Mentioned(Operands(l.body), st, setup);
    MentionedMarks(Operands(l.body), st, setup, x);
    DirectiveKeeps(l, c, read, setup, x);
    AdvanceKeeps(Size(l.body, c, setup.dirpag), Directive(l, c, read, setup), setup, x);
  }

  lemma AdvanceKeeps(n: int, st: State, setup: Setup, x: string)
    ensures Look(x, Advance(n, st), setup) == Look(x, st, setup)
  {
  }

  lemma MiddleImports(l: Line, st: State, setup: Setup, last: bool, x: string)
    requires st.Valid() && l.body == Import(x)
    ensures Touched(Look(x, st, setup), Look(x, Middle(l, st, setup, last), setup))
  {
    var c := ContextOf(st, setup, last);
    var read := Mentioned([], st, setup);
    MentionedMarks([], st, setup, x);
    ImportTouches(l, c, read, setup, x);
    AdvanceKeeps(0, Directive(l, c, read, setup), setup, x);
  }

  lemma ConfirmKeeps(x: string, y: string, was: int, st: State, setup: Setup, last: bool)
    requires x != y
    ensures Look(x, Confirm(y, was, st, setup, last), setup) == Look(x, st, setup)
  {
  }

  lemma StepIsMiddle(l: Line, st: State, setup: Setup, last: bool, x: string)
    requires st.Valid() && Some(x) != l.lab
    ensures Look(x, Step(l, st, setup, last), setup) == Look(x, Middle(l, Opened(l, st, setup, last), setup, last), setup)
  {
    if l.lab.Some? {
      ConfirmKeeps(x, l.lab.value, Look(l.lab.value, st, setup).value,
                   Middle(l, Opened(l, st, setup, last), setup, last), setup, last);
    }
  }

  lemma StepTouches(l: Line, st: State, setup: Setup, last: bool, x: string)
    requires st.Valid() && Some(x) != l.lab
    ensures Touched(Look(x, st, setup), Look(x, Step(l, st, setup, last), setup))
    ensures x in NamesIn(Operands(l.body)) && !l.body.Import? ==>
              Look(x, Step(l, st, setup, last), setup) == MarkedSymbol(Look(x, st, setup), true)
  {
    OpenedKeeps(l, st, setup, last, x);
    StepIsMiddle(l, st, setup, last, x);
    if l.body == Import(x) {
      MiddleImports(l, Opened(l, st, setup, last), setup, last, x);
    } else {
      MiddleMarks(l, Opened(l, st, setup, last), setup, last, x);
    }
  }

  // ---- labels

  /** What a label is after its line. */
  lemma LabelStep(l: Line, st: State, setup: Setup, last: bool, x: string)
    requires st.Valid() && l.lab == Some(x) && !l.body.Equ? && l.body != Import(x)
    requires !Look(x, st, setup).known || last
    ensures Look(x, Step(l, st, setup, last), setup).known
    ensures Look(x, Step(l, st, setup, last), setup).reserved == Look(x, st, setup).reserved
    ensures Look(x, Step(l, st, setup, last), setup).value == st.here.lc
    ensures Look(x, Step(l, st, setup, last), setup).tag == st.here.tag.(fwd := Look(x, Step(l, st, setup, last), setup).tag.fwd)
    ensures Look(x, Step(l, st, setup, last), setup).tag.fwd
         == (Look(x, st, setup).tag.fwd || st.here.tag.fwd
             || (x in NamesIn(Operands(l.body)) && !Look(x, st, setup).known && !Look(x, st, setup).reserved))
  {
    MiddleMarks(l, Opened(l, st, setup, last), setup, last, x);
  }

  lemma EquStep(l: Line, st: State, setup: Setup, last: bool, x: string, v: Value)
    requires st.Valid() && l.lab == Some(x) && l.body.Equ?
    requires !Look(x, st, setup).known || last
    requires v == Eval(l.body.e, ContextOf(Opened(l, st, setup, last), setup, last))
    ensures Look(x, Step(l, st, setup, last), setup)
         == Symbol(true, Look(x, st, setup).reserved,
                   EquTag(v).(fwd := EquTag(v).fwd || Look(x, st, setup).tag.fwd || st.here.tag.fwd), v.offset)
  {
    var begun := Opened(l, st, setup, last);
    MentionedMarks(Operands(l.body), begun, setup, x);
    var read := Mentioned(Operands(l.body), begun, setup);
    assert Look(x, read, setup).known;
    AdvanceKeeps(0, Equate(x, v, read, setup), setup, x);
  }

  function EquTag(v: Value): Tag {
    if v.tag.imp then UNDEFINED else v.tag
  }

  // ---- the two passes side by side

  /** The same symbol in the first pass, in the last pass, and after the first pass. */
  predicate Matches(s: Symbol, t: Symbol, u: Symbol) {
    && Kept(s, u) && (s.known ==> !s.tag.und && !s.tag.imp)
    && t.reserved == u.reserved && (if u.known then t == u else !t.known)
  }

  predicate CleanTag(t: Tag) {
    !t.und && !t.imp
  }

  predicate SameCounters(a: State, b: State) {
    && a.Valid() && b.Valid() && a.here == b.here && a.cur == b.cur && a.saved == b.saved
    && CleanTag(a.here.tag) && (forall c <- a.saved :: CleanTag(c.tag))
  }

  ghost predicate SameSymbols(a: State, b: State, f: State, setup: Setup) {
    forall x :: Matches(Look(x, a, setup), Look(x, b, setup), Look(x, f, setup))
  }

  /** Every name is a label that was defined on an earlier line. */
  predicate DefinedAlready(e: Expr, a: State, setup: Setup) {
    forall x <- Names(e) :: Look(x, a, setup).known
  }

  /** The value that a directive needs at once. */
  function Needed(b: Body, c: Context): Value
    requires b.Space? || b.Align? || b.Org? || b.Equ?
  {
    if b.Equ? then Eval(b.e, c) else Absolute(b.e, c)
  }

  predicate NeedsValue(b: Body) {
    b.Space? || b.Align? || b.Org? || b.Equ?
  }

  /** A line of a program with labels that are defined once, whose sizes of data are
      known when they are read, and without comparisons of forward references where
      the size of an instruction depends on the operand. */
  predicate Steady(l: Line, a: State, setup: Setup)
    requires a.Valid()
  {
    && FreshLabel(l, a, setup) && (l.body.Equ? ==> l.lab.Some?)
    && (NeedsValue(l.body) ==>
          DefinedAlready(l.body.e, a, setup)
          && !Needed(l.body, ContextOf(Opened(l, a, setup, false), setup, false)).tag.und)
    && (l.body.Memory? ==> NoComparison(l.body.e) || DefinedAlready(l.body.e, a, setup))
  }

  /** The contexts of a line's operands in the two passes. */
  ghost function First(l: Line, a: State, setup: Setup): Context {
    ContextOf(Opened(l, a, setup, false), setup, false)
  }

  ghost function Last(l: Line, b: State, setup: Setup): Context {
    ContextOf(Opened(l, b, setup, true), setup, true)
  }

  lemma ContextsSameHere(l: Line, a: State, b: State, setup: Setup)
    requires SameCounters(a, b)
    ensures SameHere(First(l, a, setup), Last(l, b, setup))
  {
  }

  lemma LookOpened(l: Line, a: State, b: State, setup: Setup, x: string)
    requires Some(x) != l.lab
    ensures First(l, a, setup).Look(x) == Look(x, a, setup) && Last(l, b, setup).Look(x) == Look(x, b, setup)
  {
    OpenedKeeps(l, a, setup, false, x);
    OpenedKeeps(l, b, setup, true, x);
  }

  lemma DefinedIsSettled(l: Line, a: State, b: State, f: State, setup: Setup, e: Expr)
    requires SameCounters(a, b) && SameSymbols(a, b, f, setup) && FreshLabel(l, a, setup) && DefinedAlready(e, a, setup)
    ensures SameResult(Eval(e, First(l, a, setup)), Eval(e, Last(l, b, setup)))
  {
    ContextsSameHere(l, a, b, setup);
    forall x <- Names(e)
      ensures Settled(First(l, a, setup).Look(x), Last(l, b, setup).Look(x))
    {
      assert Matches(Look(x, a, setup), Look(x, b, setup), Look(x, f, setup));
      LookOpened(l, a, b, setup, x);
    }
    EvalSettled(e, First(l, a, setup), Last(l, b, setup));
  }

  /** A name in an operand of an instruction. */
  lemma NameIsForward(l: Line, a: State, b: State, f: State, setup: Setup, x: string)
    requires SameCounters(a, b) && SameSymbols(a, b, f, setup) && FreshLabel(l, a, setup)
    requires Persists(Step(l, a, setup, false), f, setup) && l.body.Memory? && x in NamesIn(Operands(l.body))
    ensures SettledOrForward(First(l, a, setup).Look(x), Last(l, b, setup).Look(x))
  {
    assert Matches(Look(x, a, setup), Look(x, b, setup), Look(x, f, setup));
    assert Kept(Look(x, Step(l, a, setup, false), setup), Look(x, f, setup));
    if Some(x) == l.lab {
      LabelStep(l, a, setup, false, x);
    } else {
      LookOpened(l, a, b, setup, x);
      StepTouches(l, a, setup, false, x);
    }
  }

  lemma OneOperand(e: Expr)
    ensures NamesIn([e]) == Names(e)
  {
    assert [e][1..] == [];
  }

  lemma SizesAgree(l: Line, a: State, b: State, f: State, setup: Setup)
    requires SameCounters(a, b) && SameSymbols(a, b, f, setup) && Steady(l, a, setup)
    requires Persists(Step(l, a, setup, false), f, setup)
    ensures Size(l.body, First(l, a, setup), setup.dirpag) == Size(l.body, Last(l, b, setup), setup.dirpag)
  {
    ContextsSameHere(l, a, b, setup);
    if NeedsValue(l.body) {
      DefinedIsSettled(l, a, b, f, setup, l.body.e);
    } else if l.body.Memory? {
      if NoComparison(l.body.e) {
        OneOperand(l.body.e);
        forall x <- Names(l.body.e)
          ensures SettledOrForward(First(l, a, setup).Look(x), Last(l, b, setup).Look(x))
        {
          NameIsForward(l, a, b, f, setup, x);
        }
        EvalForward(l.body.e, First(l, a, setup), Last(l, b, setup));
      } else {
        DefinedIsSettled(l, a, b, f, setup, l.body.e);
      }
    }
  }

  lemma DirectivesAgree(l: Line, c: Context, d: Context, a: State, b: State, setup: Setup)
    requires SameCounters(a, b)
    requires NeedsValue(l.body) ==> SameResult(Needed(l.body, c), Needed(l.body, d)) && CleanTag(Needed(l.body, c).tag)
    ensures SameCounters(Directive(l, c, a, setup), Directive(l, d, b, setup))
  {
    if l.body.Loc? {
      SwitchesAgree(l.body.seg, a, b);
    } else if NeedsValue(l.body) {
      ValuesAgree(l, c, d, a, b, setup, Needed(l.body, c), Needed(l.body, d));
    }
  }

  lemma ValuesAgree(l: Line, c: Context, d: Context, a: State, b: State, setup: Setup, v: Value, w: Value)
    requires SameCounters(a, b) && NeedsValue(l.body) && v == Needed(l.body, c) && w == Needed(l.body, d)
    requires SameResult(v, w) && CleanTag(v.tag)
    ensures SameCounters(Directive(l, c, a, setup), Directive(l, d, b, setup))
  {
  }

  lemma SwitchesAgree(seg: bv4, a: State, b: State)
    requires SameCounters(a, b)
    ensures SameCounters(SwitchTo(seg, a), SwitchTo(seg, b))
  {
    forall c <- SwitchTo(seg, a).saved
      ensures CleanTag(c.tag)
    {
      assert c == a.here || c in a.saved;
    }
  }

  lemma NeededAgrees(l: Line, a: State, b: State, f: State, setup: Setup)
    requires SameCounters(a, b) && SameSymbols(a, b, f, setup) && Steady(l, a, setup) && NeedsValue(l.body)
    ensures SameResult(Needed(l.body, First(l, a, setup)), Needed(l.body, Last(l, b, setup)))
    ensures CleanTag(Needed(l.body, First(l, a, setup)).tag)
  {
    DefinedIsSettled(l, a, b, f, setup, l.body.e);
    ContextsSameHere(l, a, b, setup);
    NoImports(l.body.e, First(l, a, setup));
  }

  /** In the first pass no value is marked as imported. */
  lemma {:induction false} NoImports(e: Expr, c: Context)
    requires !c.last && !c.lcTag.imp
    ensures !Eval(e, c).tag.imp
  {
    match e
    case Neg(a) => NoImports(a, c);
    case Not(a) => NoImports(a, c);
    case Bin(op, a, b) =>
      NoImports(a, c);
      NoImports(b, c);
      NoImportsCombined(op, Eval(a, c), Eval(b, c));
    case Id(_) =>
    case Here =>
    case Number(_) =>
  }

  lemma NoImportsCombined(op: Op, l: Value, r: Value)
    requires !l.tag.imp && !r.tag.imp
    ensures !Combine(op, l, r, false).tag.imp
  {
  }

  lemma CountersAgree(l: Line, a: State, b: State, f: State, setup: Setup)
    requires SameCounters(a, b) && SameSymbols(a, b, f, setup) && Steady(l, a, setup)
    requires Persists(Step(l, a, setup, false), f, setup)
    ensures SameCounters(Step(l, a, setup, false), Step(l, b, setup, true))
  {
    var begunA, begunB := Opened(l, a, setup, false), Opened(l, b, setup, true);
    if NeedsValue(l.body) {
      NeededAgrees(l, a, b, f, setup);
    }
    DirectivesAgree(l, First(l, a, setup), Last(l, b, setup), Mentioned(Operands(l.body), begunA, setup),
                    Mentioned(Operands(l.body), begunB, setup), setup);
    SizesAgree(l, a, b, f, setup);
    StepCounters(l, a, setup, false);
    StepCounters(l, b, setup, true);
  }

  lemma StepCounters(l: Line, st: State, setup: Setup, last: bool)
    requires st.Valid()
    ensures Step(l, st, setup, last).here == Middle(l, Opened(l, st, setup, last), setup, last).here
    ensures Step(l, st, setup, last).cur == Middle(l, Opened(l, st, setup, last), setup, last).cur
    ensures Step(l, st, setup, last).saved == Middle(l, Opened(l, st, setup, last), setup, last).saved
  {
  }

  /** The label of the line, in the last pass, is what the first pass made of it. */
  lemma LabelAgrees(l: Line, a: State, b: State, f: State, setup: Setup, x: string)
    requires SameCounters(a, b) && SameSymbols(a, b, f, setup) && Steady(l, a, setup) && l.lab == Some(x)
    requires Persists(Step(l, a, setup, false), f, setup)
    ensures Look(x, Step(l, a, setup, false), setup) == Look(x, f, setup) == Look(x, b, setup)
    ensures Look(x, Step(l, b, setup, true), setup) == Look(x, f, setup)
    ensures Look(x, f, setup).known && CleanTag(Look(x, f, setup).tag)
  {
    assert Matches(Look(x, a, setup), Look(x, b, setup), Look(x, f, setup));
    assert Kept(Look(x, Step(l, a, setup, false), setup), Look(x, f, setup));
    if l.body.Equ? {
      NeededAgrees(l, a, b, f, setup);
      EquStep(l, a, setup, false, x, Needed(l.body, First(l, a, setup)));
      EquStep(l, b, setup, true, x, Needed(l.body, Last(l, b, setup)));
    } else {
      LabelStep(l, a, setup, false, x);
      LabelStep(l, b, setup, true, x);
    }
  }

  lemma SymbolsAgree(l: Line, a: State, b: State, f: State, setup: Setup)
    requires SameCounters(a, b) && SameSymbols(a, b, f, setup) && Steady(l, a, setup)
    requires Persists(Step(l, a, setup, false), f, setup)
    ensures SameSymbols(Step(l, a, setup, false), Step(l, b, setup, true), f, setup)
  {
    forall x
      ensures Matches(Look(x, Step(l, a, setup, false), setup), Look(x, Step(l, b, setup, true), setup), Look(x, f, setup))
    {
      assert Matches(Look(x, a, setup), Look(x, b, setup), Look(x, f, setup));
      assert Kept(Look(x, Step(l, a, setup, false), setup), Look(x, f, setup));
      if Some(x) == l.lab {
        LabelAgrees(l, a, b, f, setup, x);
      } else {
        StepTouches(l, a, setup, false, x);
        StepTouches(l, b, setup, true, x);
      }
    }
  }

  lemma StaysStable(l: Line, a: State, b: State, f: State, setup: Setup)
    requires SameCounters(a, b) && SameSymbols(a, b, f, setup) && Steady(l, a, setup)
    requires Persists(Step(l, a, setup, false), f, setup)
    ensures Step(l, b, setup, true).unstable == b.unstable
  {
    if l.lab.Some? {
      LabelAgrees(l, a, b, f, setup, l.lab.value);
    }
  }

  // ---- whole programs

  /** Every line is steady when the first pass reaches it. */
  predicate AllSteady(lines: seq<Line>, a: State, setup: Setup)
    requires a.Valid()
    decreases |lines|
  {
    lines == [] || (Steady(lines[0], a, setup) && AllSteady(lines[1..], Step(lines[0], a, setup, false), setup))
  }

  /** Each label is defined once. */
  predicate AllFresh(lines: seq<Line>, a: State, setup: Setup)
    requires a.Valid()
    decreases |lines|
  {
    lines == [] || (FreshLabel(lines[0], a, setup) && AllFresh(lines[1..], Step(lines[0], a, setup, false), setup))
  }

  lemma {:induction false} SteadyIsFresh(lines: seq<Line>, a: State, setup: Setup)
    requires a.Valid() && AllSteady(lines, a, setup)
    ensures AllFresh(lines, a, setup)
    decreases |lines|
  {
    if lines != [] {
      SteadyIsFresh(lines[1..], Step(lines[0], a, setup, false), setup);
    }
  }

  lemma StepPersists(l: Line, a: State, setup: Setup)
    requires a.Valid() && FreshLabel(l, a, setup)
    ensures Persists(a, Step(l, a, setup, false), setup)
  {
    forall x
      ensures Kept(Look(x, a, setup), Look(x, Step(l, a, setup, false), setup))
    {
      if Some(x) != l.lab {
        StepTouches(l, a, setup, false, x);
      } else if l.body.Equ? {
        LabelMarkKept(l, a, setup, x);
      } else {
        LabelStep(l, a, setup, false, x);
      }
    }
  }

  lemma LabelMarkKept(l: Line, a: State, setup: Setup, x: string)
    requires a.Valid() && l.lab == Some(x) && l.body.Equ?
    ensures Look(x, Step(l, a, setup, false), setup).reserved == Look(x, a, setup).reserved
    ensures Look(x, a, setup).tag.fwd ==> Look(x, Step(l, a, setup, false), setup).tag.fwd
  {
    var begun := Opened(l, a, setup, false);
    var read := Mentioned(Operands(l.body), begun, setup);
    MentionedMarks(Operands(l.body), begun, setup, x);
    AdvanceKeeps(0, Equate(x, Eval(l.body.e, First(l, a, setup)), read, setup), setup, x);
  }

  lemma {:induction false} RunPersists(lines: seq<Line>, a: State, setup: Setup)
    requires a.Valid() && AllFresh(lines, a, setup)
    ensures Persists(a, Run(lines, a, setup, false), setup)
    decreases |lines|
  {
    if lines != [] {
      StepPersists(lines[0], a, setup);
      RunPersists(lines[1..], Step(lines[0], a, setup, false), setup);
      PersistsChains(a, Step(lines[0], a, setup, false), Run(lines, a, setup, false), setup);
    }
  }

  lemma PersistsChains(a: State, b: State, c: State, setup: Setup)
    requires Persists(a, b, setup) && Persists(b, c, setup)
    ensures Persists(a, c, setup)
  {
    forall x
      ensures Kept(Look(x, a, setup), Look(x, c, setup))
    {
      assert Kept(Look(x, a, setup), Look(x, b, setup)) && Kept(Look(x, b, setup), Look(x, c, setup));
    }
  }

  /** How far each line moves its location counter. */
  function Sizes(lines: seq<Line>, st: State, setup: Setup, last: bool): seq<int>
    requires st.Valid()
    decreases |lines|
  {
    if lines == [] then []
    else [Size(lines[0].body, ContextOf(Opened(lines[0], st, setup, last), setup, last), setup.dirpag)]
         + Sizes(lines[1..], Step(lines[0], st, setup, last), setup, last)
  }

  lemma {:induction false} RestAgrees(lines: seq<Line>, a: State, b: State, f: State, setup: Setup)
    requires SameCounters(a, b) && SameSymbols(a, b, f, setup) && AllSteady(lines, a, setup)
    requires f == Run(lines, a, setup, false)
    ensures Sizes(lines, a, setup, false) == Sizes(lines, b, setup, true)
    ensures SameCounters(f, Run(lines, b, setup, true)) && SameSymbols(f, Run(lines, b, setup, true), f, setup)
    ensures Run(lines, b, setup, true).unstable == b.unstable
    decreases |lines|
  {
    if lines != [] {
      var a', b' := Step(lines[0], a, setup, false), Step(lines[0], b, setup, true);
      SteadyIsFresh(lines[1..], a', setup);
      RunPersists(lines[1..], a', setup);
      SizesAgree(lines[0], a, b, f, setup);
      CountersAgree(lines[0], a, b, f, setup);
      SymbolsAgree(lines[0], a, b, f, setup);
      StaysStable(lines[0], a, b, f, setup);
      RestAgrees(lines[1..], a', b', f, setup);
    }
  }

  /** No labels are defined before the first line. */
  ghost predicate Unlabelled(symbols: map<string, Symbol>, setup: Setup) {
    forall x :: !Look(x, Start(symbols), setup).known
  }

  /** Both passes give every line the same size and every label the same value, and
      no label is reported as unstable. */
  lemma PassesAgree(lines: seq<Line>, symbols: map<string, Symbol>, setup: Setup)
    requires Unlabelled(symbols, setup) && AllSteady(lines, Start(symbols), setup)
    ensures Sizes(lines, Start(symbols), setup, false)
         == Sizes(lines, Start(Run(lines, Start(symbols), setup, false).symbols), setup, true)
    ensures !Run(lines, Start(Run(lines, Start(symbols), setup, false).symbols), setup, true).unstable
    ensures SameCounters(Run(lines, Start(symbols), setup, false),
                         Run(lines, Start(Run(lines, Start(symbols), setup, false).symbols), setup, true))
    ensures forall x | Look(x, Run(lines, Start(symbols), setup, false), setup).known ::
              Look(x, Run(lines, Start(Run(lines, Start(symbols), setup, false).symbols), setup, true), setup)
              == Look(x, Run(lines, Start(symbols), setup, false), setup)
  {
    var a, f := Start(symbols), Run(lines, Start(symbols), setup, false);
    var b := Start(f.symbols);
    SteadyIsFresh(lines, a, setup);
    RunPersists(lines, a, setup);
    forall x
      ensures Matches(Look(x, a, setup), Look(x, b, setup), Look(x, f, setup))
    {
      assert Kept(Look(x, a, setup), Look(x, f, setup)) && !Look(x, a, setup).known;
      assert Look(x, b, setup) == Look(x, f, setup);
    }
    RestAgrees(lines, a, b, f, setup);
    SameLabels(f, Run(lines, b, setup, true), setup);
  }

  lemma SameLabels(f: State, g: State, setup: Setup)
    requires SameSymbols(f, g, f, setup)
    ensures forall x | Look(x, f, setup).known :: Look(x, g, setup) == Look(x, f, setup)
  {
    forall x | Look(x, f, setup).known
      ensures Look(x, g, setup) == Look(x, f, setup)
    {
      assert Matches(Look(x, f, setup), Look(x, g, setup), Look(x, f, setup));
    }
  }
}
