/** When the last pass reports no error, the symbols that its operands saw mean what they mean
    in the table that it ends with: forward labels did not move, and first-pass tags were right. */
module FinalTable {
  import opened Prelude
  import opened AsmExpression
  import opened OperandReader
  import opened Assembly
  import opened TwoPass
  import opened AssemblyTags
  import ShortBranch

  // ---- errors of the last pass

  /** The last pass reports no error for a line, whose operands it evaluates in c. */
  predicate Errorless(l: Line, c: Context) {
    && (forall e <- Operands(l.body) :: !Eval(e, c).bad)
    && match l.body
       case Immediate(wide, e) => wide || !Absolute(e, c).bad
       case Bytes(es) => forall e <- es :: !Absolute(e, c).bad
       case Space(e) => !Absolute(e, c).bad
       case Align(e) => !Absolute(e, c).bad
       case Org(e) => !Absolute(e, c).bad
       case Branch(e) => ShortBranch.Displacement(Eval(e, c), c).Some?
       case Equ(e) => l.lab.Some? && !Eval(e, c).tag.imp
       case Import(x) => !c.Look(x).known
       case _ => true
  }

  /** No line is refused, and no label moves. */
  predicate AllErrorless(lines: seq<Line>, st: State, setup: Setup)
    requires st.Valid()
    decreases |lines|
  {
    if lines == [] then !st.unstable
    else Errorless(lines[0], ContextOf(Opened(lines[0], st, setup, true), setup, true))
         && AllErrorless(lines[1..], Step(lines[0], st, setup, true), setup)
  }

  lemma {:induction false} UnstableStays(lines: seq<Line>, st: State, setup: Setup)
    requires st.Valid() && AllErrorless(lines, st, setup)
    ensures !st.unstable && !Run(lines, st, setup, true).unstable
    decreases |lines|
  {
    if lines != [] {
      UnstableStays(lines[1..], Step(lines[0], st, setup, true), setup);
      StepUnstable(lines[0], st, setup);
    }
  }

  lemma StepUnstable(l: Line, st: State, setup: Setup)
    requires st.Valid()
    ensures Middle(l, Opened(l, st, setup, true), setup, true).unstable == st.unstable
    ensures Step(l, st, setup, true).unstable
         == (st.unstable
             || (l.lab.Some? && Look(l.lab.value, Step(l, st, setup, true), setup).value
                                != Look(l.lab.value, st, setup).value))
  {
    DirectiveUnstable(l, Last(l, st, setup), Mentioned(Operands(l.body), Opened(l, st, setup, true), setup), setup);
  }

  lemma DirectiveUnstable(l: Line, c: Context, st: State, setup: Setup)
    requires st.Valid()
    ensures Directive(l, c, st, setup).unstable == st.unstable
  {
  }

  // ---- tags of the two passes

  /** Two tags that relocate alike, unless the first is undefined. */
  predicate SameBase(t: Tag, u: Tag) {
    t.und || (t.rel == u.rel && t.seg == u.seg)
  }

  /** A value of the first pass and the accepted value of the last pass relocate alike. */
  predicate LikeValue(v: Value, w: Value) {
    w.bad || w.tag.imp || SameBase(v.tag, w.tag)
  }

  lemma DifferenceAlike(l: Value, r: Value, j: Value, l': Value, r': Value, j': Value)
    requires LikeValue(l, l') && LikeValue(r, r')
    requires j == Both(l, r, j.offset, Join(l.tag, r.tag)) && j' == Both(l', r', j'.offset, Join(l'.tag, r'.tag))
    ensures LikeValue(CheckTags(Sub, l, r, j, false), CheckTags(Sub, l', r', j', true))
  {
  }

  lemma ComparedAlike(l: Value, r: Value, j: Value, l': Value, r': Value, j': Value)
    requires LikeValue(l, l') && LikeValue(r, r')
    requires j == Both(l, r, j.offset, Join(l.tag, r.tag)) && j' == Both(l', r', j'.offset, Join(l'.tag, r'.tag))
    ensures LikeValue(Compared(l, r, j, false), Compared(l', r', j', true))
  {
  }

  lemma CheckedAlike(op: Op, l: Value, r: Value, j: Value, l': Value, r': Value, j': Value)
    requires LikeValue(l, l') && LikeValue(r, r')
    requires j == Both(l, r, j.offset, Join(l.tag, r.tag)) && j' == Both(l', r', j'.offset, Join(l'.tag, r'.tag))
    ensures LikeValue(CheckTags(op, l, r, j, false), CheckTags(op, l', r', j', true))
  {
    if op == Sub {
      DifferenceAlike(l, r, j, l', r', j');
    } else if op == Eq || op == Lt || op == Gt {
      ComparedAlike(l, r, j, l', r', j');
    }
  }

  lemma CombinedAlike(op: Op, l: Value, r: Value, l': Value, r': Value)
    requires LikeValue(l, l') && LikeValue(r, r')
    ensures LikeValue(Combine(op, l, r, false), Combine(op, l', r', true))
  {
    var o, o' := Arith(op, l.offset, r.offset), Arith(op, l'.offset, r'.offset);
    CheckedAlike(op, l, r, Both(l, r, o, Join(l.tag, r.tag)), l', r', Both(l', r', o', Join(l'.tag, r'.tag)));
  }

  ghost predicate LikeHere(c: Context, d: Context) {
    !c.last && d.last && c.lcTag.rel == d.lcTag.rel && c.lcTag.seg == d.lcTag.seg
  }

  lemma {:induction false} EvalAlike(e: Expr, c: Context, d: Context)
    requires LikeHere(c, d) && forall x <- Names(e) :: LikeValue(EvalId(x, c), EvalId(x, d))
    ensures LikeValue(Eval(e, c), Eval(e, d))
  {
    match e
    case Id(x) => assert x in Names(e);
    case Neg(a) => EvalAlike(a, c, d);
    case Not(a) => EvalAlike(a, c, d);
    case Bin(op, a, b) =>
      EvalAlike(a, c, d);
      EvalAlike(b, c, d);
      CombinedAlike(op, Eval(a, c), Eval(b, c), Eval(a, d), Eval(b, d));
    case Here =>
    case Number(_) =>
  }

  // ---- the two passes side by side

  /** A symbol in the first pass, in the last pass, and after the first pass. */
  predicate Pair(s: Symbol, t: Symbol, u: Symbol) {
    && s.reserved == t.reserved && Kept(s, u) && t.known == u.known
    && (s.known ==> SameBase(s.tag, t.tag))
    && (!s.known && u.known ==> t == u)
    && (!s.known && !s.reserved && s.tag.imp && !s.tag.und ==> !u.known && t.tag.imp)
  }

  ghost predicate Paired(a: State, b: State, f: State, setup: Setup) {
    forall x :: Pair(Look(x, a, setup), Look(x, b, setup), Look(x, f, setup))
  }

  /** Both passes bind their location counters alike. */
  ghost predicate LikeCounters(a: State, b: State) {
    && a.Valid() && b.Valid() && a.cur == b.cur && a.here.tag.rel == b.here.tag.rel
    && forall s | 0 <= s < 16 :: a.saved[s].tag.rel == b.saved[s].tag.rel
  }

  lemma SwitchesAlike(seg: bv4, a: State, b: State)
    requires LikeCounters(a, b)
    ensures LikeCounters(SwitchTo(seg, a), SwitchTo(seg, b))
  {
    forall s | 0 <= s < 16
      ensures SwitchTo(seg, a).saved[s].tag.rel == SwitchTo(seg, b).saved[s].tag.rel
    {
      assert a.saved[s].tag.rel == b.saved[s].tag.rel;
    }
    assert SwitchTo(seg, a).saved[seg as nat].tag.rel == SwitchTo(seg, b).saved[seg as nat].tag.rel;
  }

  /** What a directive does to how the location counter is bound. */
  lemma DirectiveBinds(l: Line, c: Context, st: State, setup: Setup)
    requires st.Valid() && !l.body.Loc?
    ensures Directive(l, c, st, setup).cur == st.cur && Directive(l, c, st, setup).saved == st.saved
    ensures Directive(l, c, st, setup).here.tag.rel == (st.here.tag.rel && !l.body.Org?)
  {
  }

  lemma DirectivesAlike(l: Line, c: Context, d: Context, a: State, b: State, setup: Setup)
    requires LikeCounters(a, b)
    ensures LikeCounters(Directive(l, c, a, setup), Directive(l, d, b, setup))
  {
    if l.body.Loc? {
      SwitchesAlike(l.body.seg, a, b);
    } else {
      DirectiveBinds(l, c, a, setup);
      DirectiveBinds(l, d, b, setup);
    }
  }

  /** A line binds the counters as its directive does. */
  lemma StepBinds(l: Line, c: Context, read: State, st: State, setup: Setup, last: bool)
    requires st.Valid() && c == ContextOf(Opened(l, st, setup, last), setup, last)
    requires read == Mentioned(Operands(l.body), Opened(l, st, setup, last), setup)
    ensures Step(l, st, setup, last).cur == Directive(l, c, read, setup).cur
    ensures Step(l, st, setup, last).saved == Directive(l, c, read, setup).saved
    ensures Step(l, st, setup, last).here.tag == Directive(l, c, read, setup).here.tag
  {
    StepCounters(l, st, setup, last);
  }

  predicate SameBinding(a: State, b: State) {
    a.cur == b.cur && a.saved == b.saved && a.here.tag == b.here.tag
  }

  lemma OpenedBinds(l: Line, st: State, setup: Setup, last: bool)
    ensures SameBinding(Mentioned(Operands(l.body), Opened(l, st, setup, last), setup), st)
  {
  }

  lemma AlikeChains(a: State, b: State, a': State, b': State)
    requires LikeCounters(a, b) && SameBinding(a', a) && SameBinding(b', b)
    ensures LikeCounters(a', b')
  {
  }

  lemma CountersAlike(l: Line, a: State, b: State, setup: Setup)
    requires LikeCounters(a, b)
    ensures LikeCounters(Step(l, a, setup, false), Step(l, b, setup, true))
  {
    var c, d := First(l, a, setup), Last(l, b, setup);
    var readA := Mentioned(Operands(l.body), Opened(l, a, setup, false), setup);
    var readB := Mentioned(Operands(l.body), Opened(l, b, setup, true), setup);
    OpenedBinds(l, a, setup, false);
    OpenedBinds(l, b, setup, true);
    AlikeChains(a, b, readA, readB);
    DirectivesAlike(l, c, d, readA, readB, setup);
    StepBinds(l, c, readA, a, setup, false);
    StepBinds(l, d, readB, b, setup, true);
    AlikeChains(Directive(l, c, readA, setup), Directive(l, d, readB, setup),
                Step(l, a, setup, false), Step(l, b, setup, true));
  }

  /** What the lemmas about one line ask for. */
  ghost predicate Aligned(l: Line, a: State, b: State, f: State, setup: Setup) {
    && GoodState(a, setup) && GoodState(b, setup) && LikeCounters(a, b) && Paired(a, b, f, setup)
    && GoodLine(l) && FreshLabel(l, a, setup) && Errorless(l, Last(l, b, setup))
    && Persists(Step(l, a, setup, false), f, setup)
  }

  lemma LeafAlike(l: Line, a: State, b: State, f: State, setup: Setup, x: string)
    requires Aligned(l, a, b, f, setup) && l.body.Equ?
    ensures LikeValue(EvalId(x, First(l, a, setup)), EvalId(x, Last(l, b, setup)))
  {
    assert Pair(Look(x, a, setup), Look(x, b, setup), Look(x, f, setup));
    assert GoodSymbol(Look(x, a, setup)) && GoodSymbol(Look(x, b, setup));
    if Some(x) != l.lab {
      LookOpened(l, a, b, setup, x);
    }
  }

  lemma EquAlike(l: Line, a: State, b: State, f: State, setup: Setup)
    requires Aligned(l, a, b, f, setup) && l.body.Equ?
    ensures SameBase(EquTag(Eval(l.body.e, First(l, a, setup))), EquTag(Eval(l.body.e, Last(l, b, setup))))
  {
    assert l.body.e in Operands(l.body);
    forall x <- Names(l.body.e)
      ensures LikeValue(EvalId(x, First(l, a, setup)), EvalId(x, Last(l, b, setup)))
    {
      LeafAlike(l, a, b, f, setup, x);
    }
    EvalAlike(l.body.e, First(l, a, setup), Last(l, b, setup));
    NoImports(l.body.e, First(l, a, setup));
  }

  lemma LabelPairs(l: Line, a: State, b: State, f: State, setup: Setup, x: string)
    requires Aligned(l, a, b, f, setup) && l.lab == Some(x)
    ensures Pair(Look(x, Step(l, a, setup, false), setup), Look(x, Step(l, b, setup, true), setup), Look(x, f, setup))
    ensures Look(x, Step(l, a, setup, false), setup).known
  {
    assert Pair(Look(x, a, setup), Look(x, b, setup), Look(x, f, setup));
    assert Kept(Look(x, Step(l, a, setup, false), setup), Look(x, f, setup));
    StepDefines(l, a, setup, false, x);
    StepDefines(l, b, setup, true, x);
    if l.body.Equ? {
      EquAlike(l, a, b, f, setup);
      EquStep(l, a, setup, false, x, Eval(l.body.e, First(l, a, setup)));
      EquStep(l, b, setup, true, x, Eval(l.body.e, Last(l, b, setup)));
    } else {
      LabelStep(l, a, setup, false, x);
      LabelStep(l, b, setup, true, x);
    }
  }

  lemma ImportPairs(l: Line, a: State, b: State, f: State, setup: Setup, x: string)
    requires Aligned(l, a, b, f, setup) && l.body == Import(x)
    ensures Pair(Look(x, Step(l, a, setup, false), setup), Look(x, Step(l, b, setup, true), setup), Look(x, f, setup))
  {
    assert Pair(Look(x, a, setup), Look(x, b, setup), Look(x, f, setup));
    assert Kept(Look(x, Step(l, a, setup, false), setup), Look(x, f, setup));
    LookOpened(l, a, b, setup, x);
    ImportStep(l, a, setup, false, x);
    ImportStep(l, b, setup, true, x);
  }

  /** What IMPORT makes of its name. */
  lemma ImportStep(l: Line, st: State, setup: Setup, last: bool, x: string)
    requires st.Valid() && l.body == Import(x) && Some(x) != l.lab && !Look(x, st, setup).known
    ensures !Look(x, Step(l, st, setup, last), setup).known
    ensures Look(x, Step(l, st, setup, last), setup).reserved == Look(x, st, setup).reserved
    ensures !Look(x, st, setup).reserved ==> Look(x, Step(l, st, setup, last), setup).tag.imp
  {
    var begun := Opened(l, st, setup, last);
    OpenedKeeps(l, st, setup, last, x);
    StepIsMiddle(l, st, setup, last, x);
    var read := Mentioned([], begun, setup);
    MentionedMarks([], begun, setup, x);
    AdvanceKeeps(0, Imported(x, read, setup), setup, x);
  }

  lemma OtherPairs(l: Line, a: State, b: State, f: State, setup: Setup, x: string)
    requires Aligned(l, a, b, f, setup) && l.lab != Some(x) && l.body != Import(x)
    ensures Look(x, Step(l, b, setup, true), setup) == MarkedSymbol(Look(x, b, setup), x in NamesIn(Operands(l.body)))
    ensures Pair(Look(x, Step(l, a, setup, false), setup), Look(x, Step(l, b, setup, true), setup), Look(x, f, setup))
  {
    assert Pair(Look(x, a, setup), Look(x, b, setup), Look(x, f, setup));
    assert Kept(Look(x, Step(l, a, setup, false), setup), Look(x, f, setup));
    LookOpened(l, a, b, setup, x);
    StepIsMiddle(l, a, setup, false, x);
    StepIsMiddle(l, b, setup, true, x);
    MiddleMarks(l, Opened(l, a, setup, false), setup, false, x);
    MiddleMarks(l, Opened(l, b, setup, true), setup, true, x);
  }

  lemma StepPairs(l: Line, a: State, b: State, f: State, setup: Setup)
    requires Aligned(l, a, b, f, setup)
    ensures Paired(Step(l, a, setup, false), Step(l, b, setup, true), f, setup)
  {
    forall x
      ensures Pair(Look(x, Step(l, a, setup, false), setup), Look(x, Step(l, b, setup, true), setup), Look(x, f, setup))
    {
      if l.lab == Some(x) {
        LabelPairs(l, a, b, f, setup, x);
      } else if l.body == Import(x) {
        ImportPairs(l, a, b, f, setup, x);
      } else {
        OtherPairs(l, a, b, f, setup, x);
      }
    }
  }

  // ---- what lasts

  /** An operand may use the symbol in the last pass. */
  predicate Readable(s: Symbol) {
    !s.reserved && (s.tag.imp || !s.tag.und)
  }

  /** Two symbols that stand for the same address, or the same import. */
  predicate SameMeaning(s: Symbol, t: Symbol) {
    && s.tag.imp == t.tag.imp
    && (!s.tag.imp ==> s.value == t.value && s.tag.rel == t.tag.rel && (s.tag.rel ==> s.tag.seg == t.tag.seg))
  }

  /** One line of the last pass leaves the meaning of a readable symbol alone. */
  lemma StepLasts(l: Line, a: State, b: State, f: State, setup: Setup, x: string)
    requires Aligned(l, a, b, f, setup) && !Step(l, b, setup, true).unstable
    requires Look(x, a, setup).known || Readable(Look(x, b, setup))
    ensures SameMeaning(Look(x, b, setup), Look(x, Step(l, b, setup, true), setup))
    ensures Look(x, Step(l, a, setup, false), setup).known || Readable(Look(x, Step(l, b, setup, true), setup))
  {
    assert Pair(Look(x, a, setup), Look(x, b, setup), Look(x, f, setup));
    assert GoodSymbol(Look(x, b, setup));
    StepUnstable(l, b, setup);
    if l.lab == Some(x) {
      LabelLasts(l, a, b, f, setup, x);
    } else if l.body == Import(x) {
      LookOpened(l, a, b, setup, x);
      ImportStep(l, b, setup, true, x);
    } else {
      OtherPairs(l, a, b, f, setup, x);
      StepDefines(l, a, setup, false, x);
    }
  }

  lemma LabelLasts(l: Line, a: State, b: State, f: State, setup: Setup, x: string)
    requires Aligned(l, a, b, f, setup) && l.lab == Some(x) && Readable(Look(x, b, setup))
    requires Look(x, Step(l, b, setup, true), setup).value == Look(x, b, setup).value
    ensures SameMeaning(Look(x, b, setup), Look(x, Step(l, b, setup, true), setup))
    ensures Look(x, Step(l, a, setup, false), setup).known
  {
    assert Pair(Look(x, a, setup), Look(x, b, setup), Look(x, f, setup));
    assert Kept(Look(x, Step(l, a, setup, false), setup), Look(x, f, setup));
    assert GoodSymbol(Look(x, b, setup));
    LabelPairs(l, a, b, f, setup, x);
    StepDefines(l, b, setup, true, x);
    LabelIsGood(l, b, setup, true, x);
  }

  // ---- whole programs

  /** The first pass at a, the last pass at b, and the lines that are left to both. */
  ghost predicate Together(lines: seq<Line>, a: State, b: State, f: State, setup: Setup) {
    && GoodState(a, setup) && GoodState(b, setup) && LikeCounters(a, b) && Paired(a, b, f, setup)
    && GoodLines(lines) && HomeOrgs(lines, a.cur) && AllFresh(lines, a, setup) && AllErrorless(lines, b, setup)
    && f == Run(lines, a, setup, false)
  }

  lemma TogetherAligned(lines: seq<Line>, a: State, b: State, f: State, setup: Setup)
    requires lines != [] && Together(lines, a, b, f, setup)
    ensures Aligned(lines[0], a, b, f, setup) && !Step(lines[0], b, setup, true).unstable
  {
    assert lines[0] in lines;
    RunPersists(lines[1..], Step(lines[0], a, setup, false), setup);
    UnstableStays(lines[1..], Step(lines[0], b, setup, true), setup);
  }

  lemma TogetherNext(lines: seq<Line>, a: State, b: State, f: State, setup: Setup)
    requires lines != [] && Together(lines, a, b, f, setup)
    ensures Together(lines[1..], Step(lines[0], a, setup, false), Step(lines[0], b, setup, true), f, setup)
  {
    var l := lines[0];
    TogetherAligned(lines, a, b, f, setup);
    StepIsGood(l, a, setup, false);
    StepIsGood(l, b, setup, true);
    CountersAlike(l, a, b, setup);
    StepPairs(l, a, b, f, setup);
    StepCur(l, a, setup, false);
  }

  /** The last pass never changes the meaning of a symbol that an operand may use. */
  lemma {:induction false} RunLasts(lines: seq<Line>, a: State, b: State, f: State, setup: Setup, x: string)
    requires Together(lines, a, b, f, setup)
    requires Look(x, a, setup).known || Readable(Look(x, b, setup))
    ensures SameMeaning(Look(x, b, setup), Look(x, Run(lines, b, setup, true), setup))
    decreases |lines|
  {
    if lines != [] {
      TogetherAligned(lines, a, b, f, setup);
      TogetherNext(lines, a, b, f, setup);
      StepLasts(lines[0], a, b, f, setup, x);
      RunLasts(lines[1..], Step(lines[0], a, setup, false), Step(lines[0], b, setup, true), f, setup, x);
    }
  }

  /** What an operand sees is what the table holds at the end of the pass. */
  lemma NameIsFinal(lines: seq<Line>, a: State, b: State, f: State, setup: Setup, x: string)
    requires lines != [] && Together(lines, a, b, f, setup) && !lines[0].body.Equ?
    requires Readable(Last(lines[0], b, setup).Look(x))
    ensures SameMeaning(Last(lines[0], b, setup).Look(x), Look(x, Run(lines, b, setup, true), setup))
  {
    var l := lines[0];
    if l.lab == Some(x) {
      TogetherAligned(lines, a, b, f, setup);
      TogetherNext(lines, a, b, f, setup);
      OwnLabel(l, a, b, f, setup, x);
      RunLasts(lines[1..], Step(l, a, setup, false), Step(l, b, setup, true), f, setup, x);
    } else {
      LookOpened(l, a, b, setup, x);
      RunLasts(lines, a, b, f, setup, x);
    }
  }

  /** The label of the line itself. */
  lemma OwnLabel(l: Line, a: State, b: State, f: State, setup: Setup, x: string)
    requires Aligned(l, a, b, f, setup) && l.lab == Some(x) && !l.body.Equ?
    ensures SameMeaning(Last(l, b, setup).Look(x), Look(x, Step(l, b, setup, true), setup))
    ensures Look(x, Step(l, a, setup, false), setup).known
  {
    StepDefines(l, a, setup, false, x);
    LabelStep(l, b, setup, true, x);
  }

  // ---- operands

  /** The context of a line's operands, with the table that the pass ends with. */
  ghost function FinalContext(c: Context, g: State): Context {
    c.(symbols := g.symbols)
  }

  lemma PartsAccepted(op: Op, a: Expr, b: Expr, c: Context)
    requires !Eval(Bin(op, a, b), c).bad
    ensures !Eval(a, c).bad && !Eval(b, c).bad
  {
  }

  lemma {:induction false} MeaningLasts(e: Expr, c: Context, d: Context, p: Placement)
    requires c.last && !Eval(e, c).bad && d == c.(symbols := d.symbols)
    requires forall x | Readable(c.Look(x)) :: SameMeaning(c.Look(x), d.Look(x))
    ensures Meaning(e, c, p) == Meaning(e, d, p)
  {
    match e
    case Id(x) => assert Readable(c.Look(x));
    case Neg(a) => MeaningLasts(a, c, d, p);
    case Not(a) => MeaningLasts(a, c, d, p);
    case Bin(op, a, b) =>
      PartsAccepted(op, a, b, c);
      MeaningLasts(a, c, d, p);
      MeaningLasts(b, c, d, p);
    case Here =>
    case Number(_) =>
  }

  lemma NamesAreFinal(lines: seq<Line>, a: State, b: State, f: State, setup: Setup, c: Context, d: Context)
    requires lines != [] && Together(lines, a, b, f, setup) && !lines[0].body.Equ?
    requires c == Last(lines[0], b, setup) && d == FinalContext(c, Run(lines, b, setup, true))
    ensures forall x | Readable(c.Look(x)) :: SameMeaning(c.Look(x), d.Look(x))
  {
    forall x | Readable(c.Look(x))
      ensures SameMeaning(c.Look(x), d.Look(x))
    {
      NameIsFinal(lines, a, b, f, setup, x);
      assert d.Look(x) == Look(x, Run(lines, b, setup, true), setup);
    }
  }

  /** An operand's meaning is that of the source text: every label stands for the address that
      it has when the pass is over. */
  lemma OperandIsFinal(lines: seq<Line>, a: State, b: State, f: State, setup: Setup, e: Expr, p: Placement)
    requires lines != [] && Together(lines, a, b, f, setup) && !lines[0].body.Equ? && e in Operands(lines[0].body)
    ensures Meaning(e, Last(lines[0], b, setup), p)
         == Meaning(e, FinalContext(Last(lines[0], b, setup), Run(lines, b, setup, true)), p)
  {
    var c := Last(lines[0], b, setup);
    var d := FinalContext(c, Run(lines, b, setup, true));
    NamesAreFinal(lines, a, b, f, setup, c, d);
    MeaningLasts(e, c, d, p);
  }

  /** How the last pass begins. */
  lemma TogetherStarts(lines: seq<Line>, symbols: map<string, Symbol>, setup: Setup)
    requires GoodState(Start(symbols), setup) && GoodLines(lines) && HomeOrgs(lines, 0) && AllFresh(lines, Start(symbols), setup)
    requires Unlabelled(symbols, setup) && Undeclared(symbols, setup)
    requires AllErrorless(lines, Start(Run(lines, Start(symbols), setup, false).symbols), setup)
    ensures Together(lines, Start(symbols), Start(Run(lines, Start(symbols), setup, false).symbols),
                     Run(lines, Start(symbols), setup, false), setup)
  {
    var a, f := Start(symbols), Run(lines, Start(symbols), setup, false);
    var b := Start(f.symbols);
    LastPassStarts(lines, symbols, setup);
    RunPersists(lines, a, setup);
    forall x
      ensures Pair(Look(x, a, setup), Look(x, b, setup), Look(x, f, setup))
    {
      assert Kept(Look(x, a, setup), Look(x, f, setup)) && !Look(x, a, setup).known;
      assert Look(x, b, setup) == Look(x, f, setup);
    }
  }

  /** Nothing is imported before the first line. */
  ghost predicate Undeclared(symbols: map<string, Symbol>, setup: Setup) {
    forall x :: !Look(x, Start(symbols), setup).reserved ==> Look(x, Start(symbols), setup).tag.und
  }
}
