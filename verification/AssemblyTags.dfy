/** Programs keep every tag right, so that all their operands are right for every placement, as
    long as ORG is used under LOC 0; after ORG under another LOC this fails. */
module AssemblyTags {
  import opened Prelude
  import opened AsmExpression
  import opened OperandReader
  import opened Assembly
  import opened TwoPass

  predicate GoodSymbol(s: Symbol) {
    s.reserved || (SaneSymbol(s) && GoodTag(s.tag, true))
  }

  /** A location counter is relocatable; that of segment 0 (`home`) may be absolute. */
  predicate GoodCounter(c: Counter, home: bool) {
    InRange(c.lc) && !c.tag.imp && (c.tag.rel || (home && c.tag.seg == 0))
  }

  ghost predicate GoodCounters(st: State) {
    && st.Valid() && GoodCounter(st.here, st.cur == 0) && st.here.tag.seg == st.cur
    && (forall s | 0 <= s < 16 :: GoodCounter(st.saved[s], s == 0))
  }

  /** The current location counter is always bound to its own segment. */
  ghost predicate GoodState(st: State, setup: Setup) {
    GoodCounters(st) && forall x :: GoodSymbol(Look(x, st, setup))
  }

  /** No label on the import of the same name, and numbers that fit. */
  predicate GoodLine(l: Line) {
    && (l.lab.Some? ==> l.body != Import(l.lab.value))
    && forall e <- Operands(l.body) :: NumbersInRange(e)
  }

  /** The segment after a line. */
  function NextCur(l: Line, cur: bv4): bv4 {
    if l.body.Loc? then l.body.seg else cur
  }

  /** ORG occurs only under LOC 0. */
  predicate HomeOrgs(lines: seq<Line>, cur: bv4) {
    lines == [] || ((lines[0].body.Org? ==> cur == 0) && HomeOrgs(lines[1..], NextCur(lines[0], cur)))
  }

  lemma StepCur(l: Line, st: State, setup: Setup, last: bool)
    requires st.Valid()
    ensures Step(l, st, setup, last).cur == NextCur(l, st.cur)
  {
    StepCounters(l, st, setup, last);
    DirectiveCur(l, ContextOf(Opened(l, st, setup, last), setup, last),
                 Mentioned(Operands(l.body), Opened(l, st, setup, last), setup), setup);
  }

  lemma DirectiveCur(l: Line, c: Context, st: State, setup: Setup)
    requires st.Valid()
    ensures Directive(l, c, st, setup).cur == NextCur(l, st.cur)
  {
  }

  // ---- values

  ghost predicate GoodContext(c: Context) {
    && InRange(c.lc) && GoodTag(c.lcTag, true)
    && (forall x :: c.Look(x).reserved || (InRange(c.Look(x).value) && GoodTag(c.Look(x).tag, true)))
  }

  lemma CheckedTagIsGood(op: Op, l: Value, r: Value, j: Value, last: bool)
    requires GoodTag(l.tag, true) && GoodTag(r.tag, true) && j.tag == Join(l.tag, r.tag)
    ensures GoodTag(CheckTags(op, l, r, j, last).tag, true)
    ensures CheckTags(op, l, r, j, last).offset == j.offset
  {
  }

  /** In either pass, good symbols give good values. */
  lemma {:induction false} ValueIsGood(e: Expr, c: Context)
    requires GoodContext(c) && NumbersInRange(e)
    ensures GoodTag(Eval(e, c).tag, true) && InRange(Eval(e, c).offset)
  {
    match e
    case Id(x) => assert c.Look(x).reserved || GoodTag(c.Look(x).tag, true);
    case Neg(a) => ValueIsGood(a, c);
    case Not(a) => ValueIsGood(a, c);
    case Bin(op, a, b) =>
      ValueIsGood(a, c);
      ValueIsGood(b, c);
      CombinedIsGood(op, Eval(a, c), Eval(b, c), c.last);
    case Here =>
    case Number(_) =>
  }

  lemma CombinedIsGood(op: Op, l: Value, r: Value, last: bool)
    requires GoodTag(l.tag, true) && GoodTag(r.tag, true) && InRange(l.offset) && InRange(r.offset)
    ensures GoodTag(Combine(op, l, r, last).tag, true) && InRange(Combine(op, l, r, last).offset)
  {
    var o := Arith(op, l.offset, r.offset);
    ArithRange(op, l.offset, r.offset);
    CheckedTagIsGood(op, l, r, Both(l, r, o, Join(l.tag, r.tag)), last);
  }

  // ---- lines

  lemma OpenedContextIsGood(l: Line, st: State, setup: Setup, last: bool)
    requires GoodState(st, setup)
    ensures GoodContext(ContextOf(Opened(l, st, setup, last), setup, last))
  {
    var c := ContextOf(Opened(l, st, setup, last), setup, last);
    forall x
      ensures c.Look(x).reserved || (InRange(c.Look(x).value) && GoodTag(c.Look(x).tag, true))
    {
      assert GoodSymbol(Look(x, st, setup));
      if Some(x) != l.lab {
        OpenedKeeps(l, st, setup, last, x);
      }
    }
  }

  /** The value that a line needs at once, or its only operand. */
  lemma NeededIsGood(l: Line, st: State, setup: Setup, last: bool)
    requires GoodState(st, setup) && GoodLine(l) && NeedsValue(l.body)
    ensures GoodTag(Needed(l.body, ContextOf(Opened(l, st, setup, last), setup, last)).tag, true)
    ensures InRange(Needed(l.body, ContextOf(Opened(l, st, setup, last), setup, last)).offset)
  {
    OpenedContextIsGood(l, st, setup, last);
    assert l.body.e in Operands(l.body);
    ValueIsGood(l.body.e, ContextOf(Opened(l, st, setup, last), setup, last));
  }

  lemma LabelIsGood(l: Line, st: State, setup: Setup, last: bool, x: string)
    requires GoodState(st, setup) && GoodLine(l) && l.lab == Some(x) && l.body != Import(x)
    requires !Look(x, st, setup).known || last
    ensures GoodSymbol(Look(x, Step(l, st, setup, last), setup))
  {
    assert GoodSymbol(Look(x, st, setup));
    if l.body.Equ? {
      NeededIsGood(l, st, setup, last);
      EquStep(l, st, setup, last, x, Needed(l.body, ContextOf(Opened(l, st, setup, last), setup, last)));
    } else {
      LabelStep(l, st, setup, last, x);
    }
  }

  lemma ImportIsGood(l: Line, st: State, setup: Setup, last: bool, x: string)
    requires GoodState(st, setup) && l.body == Import(x) && Some(x) != l.lab
    ensures GoodSymbol(Look(x, Step(l, st, setup, last), setup))
  {
    assert GoodSymbol(Look(x, st, setup));
    var begun := Opened(l, st, setup, last);
    OpenedKeeps(l, st, setup, last, x);
    StepIsMiddle(l, st, setup, last, x);
    var read := Mentioned([], begun, setup);
    MentionedMarks([], begun, setup, x);
    AdvanceKeeps(0, Imported(x, read, setup), setup, x);
  }

  lemma SymbolIsGood(l: Line, st: State, setup: Setup, last: bool, x: string)
    requires GoodState(st, setup) && GoodLine(l) && (last || FreshLabel(l, st, setup))
    ensures GoodSymbol(Look(x, Step(l, st, setup, last), setup))
  {
    assert GoodSymbol(Look(x, st, setup));
    if l.lab == Some(x) {
      LabelIsGood(l, st, setup, last, x);
    } else if l.body == Import(x) {
      ImportIsGood(l, st, setup, last, x);
    } else {
      OpenedKeeps(l, st, setup, last, x);
      StepIsMiddle(l, st, setup, last, x);
      MiddleMarks(l, Opened(l, st, setup, last), setup, last, x);
    }
  }

  lemma SwitchIsGood(seg: bv4, st: State)
    requires GoodCounters(st)
    ensures GoodCounters(SwitchTo(seg, st))
  {
    forall s | 0 <= s < 16
      ensures GoodCounter(SwitchTo(seg, st).saved[s], s == 0)
    {
      assert GoodCounter(st.saved[s], s == 0);
    }
    assert GoodCounter(SwitchTo(seg, st).saved[seg as nat], seg as nat == 0);
  }

  lemma DirectiveIsGood(l: Line, c: Context, st: State, setup: Setup)
    requires GoodCounters(st) && (l.body.Org? ==> st.cur == 0)
    requires NeedsValue(l.body) ==> GoodTag(Needed(l.body, c).tag, true) && InRange(Needed(l.body, c).offset)
    ensures GoodCounters(Directive(l, c, st, setup))
  {
    if l.body.Loc? {
      SwitchIsGood(l.body.seg, st);
    } else if l.body.Space? || l.body.Align? {
      BindIsGood(Needed(l.body, c), st);
    }
  }

  lemma BindIsGood(v: Value, st: State)
    requires GoodCounters(st) && !v.tag.rel && GoodTag(v.tag, true)
    ensures GoodCounters(Bind(v, st))
  {
  }

  lemma CountersAreGood(l: Line, st: State, setup: Setup, last: bool)
    requires GoodState(st, setup) && GoodLine(l) && (l.body.Org? ==> st.cur == 0)
    ensures GoodCounters(Step(l, st, setup, last))
  {
    var begun := Opened(l, st, setup, last);
    var c := ContextOf(begun, setup, last);
    if NeedsValue(l.body) {
      NeededIsGood(l, st, setup, last);
    }
    DirectiveIsGood(l, c, Mentioned(Operands(l.body), begun, setup), setup);
    StepCounters(l, st, setup, last);
  }

  lemma StepIsGood(l: Line, st: State, setup: Setup, last: bool)
    requires GoodState(st, setup) && GoodLine(l) && (l.body.Org? ==> st.cur == 0) && (last || FreshLabel(l, st, setup))
    ensures GoodState(Step(l, st, setup, last), setup)
  {
    CountersAreGood(l, st, setup, last);
    forall x
      ensures GoodSymbol(Look(x, Step(l, st, setup, last), setup))
    {
      SymbolIsGood(l, st, setup, last, x);
    }
  }

  // ---- programs

  predicate GoodLines(lines: seq<Line>) {
    forall l <- lines :: GoodLine(l)
  }

  lemma {:induction false} FirstPassIsGood(lines: seq<Line>, a: State, setup: Setup)
    requires GoodState(a, setup) && GoodLines(lines) && HomeOrgs(lines, a.cur) && AllFresh(lines, a, setup)
    ensures GoodState(Run(lines, a, setup, false), setup)
    decreases |lines|
  {
    if lines != [] {
      assert lines[0] in lines;
      StepIsGood(lines[0], a, setup, false);
      StepCur(lines[0], a, setup, false);
      FirstPassIsGood(lines[1..], Step(lines[0], a, setup, false), setup);
    }
  }

  lemma StepDefines(l: Line, st: State, setup: Setup, last: bool, x: string)
    requires st.Valid()
    ensures Look(x, st, setup).known || l.lab == Some(x) ==> Look(x, Step(l, st, setup, last), setup).known
  {
    if l.lab != Some(x) {
      StepTouches(l, st, setup, last, x);
    }
  }

  lemma {:induction false} RunDefines(lines: seq<Line>, st: State, setup: Setup, last: bool, x: string)
    requires st.Valid()
    ensures Look(x, st, setup).known || (exists l <- lines :: l.lab == Some(x)) ==> Look(x, Run(lines, st, setup, last), setup).known
    decreases |lines|
  {
    if lines != [] {
      StepDefines(lines[0], st, setup, last, x);
      RunDefines(lines[1..], Step(lines[0], st, setup, last), setup, last, x);
    }
  }

  ghost predicate LabelsKnown(lines: seq<Line>, st: State, setup: Setup) {
    forall l <- lines :: l.lab.Some? ==> Look(l.lab.value, st, setup).known
  }

  lemma LabelsStayKnown(lines: seq<Line>, l: Line, st: State, setup: Setup)
    requires st.Valid() && LabelsKnown(lines, st, setup)
    ensures LabelsKnown(lines, Step(l, st, setup, true), setup)
  {
    forall k <- lines | k.lab.Some?
      ensures Look(k.lab.value, Step(l, st, setup, true), setup).known
    {
      StepDefines(l, st, setup, true, k.lab.value);
    }
  }

  /** At every line of the last pass, every operand that is accepted there is right for
      every placement. */
  ghost predicate AllSound(lines: seq<Line>, st: State, setup: Setup)
    requires st.Valid()
    decreases |lines|
  {
    lines == [] ||
    (&& (forall e, p :: !Miscompiled(e, Last(lines[0], st, setup), p))
     && AllSound(lines[1..], Step(lines[0], st, setup, true), setup))
  }

  lemma ContextIsSane(l: Line, st: State, setup: Setup)
    requires GoodState(st, setup) && (l.lab.Some? ==> Look(l.lab.value, st, setup).known)
    ensures Sane(Last(l, st, setup)) && WellTagged(Last(l, st, setup))
  {
    var c := Last(l, st, setup);
    forall x
      ensures c.Look(x).reserved || (SaneSymbol(c.Look(x)) && GoodTag(c.Look(x).tag, true))
    {
      assert GoodSymbol(Look(x, st, setup));
      if Some(x) != l.lab {
        OpenedKeeps(l, st, setup, true, x);
      }
    }
    StrictIsWellTagged(c);
  }

  lemma LineIsSound(l: Line, st: State, setup: Setup)
    requires GoodState(st, setup) && (l.lab.Some? ==> Look(l.lab.value, st, setup).known)
    ensures forall e, p :: !Miscompiled(e, Last(l, st, setup), p)
  {
    ContextIsSane(l, st, setup);
    SoundExactlyWhenWellTagged(Last(l, st, setup));
  }

  lemma StrictIsWellTagged(c: Context)
    requires GoodTag(c.lcTag, true) && forall x :: c.Look(x).reserved || GoodTag(c.Look(x).tag, true)
    ensures WellTagged(c)
  {
    forall x | Usable(c.Look(x))
      ensures GoodTag(c.Look(x).tag, Mixed(c))
    {
      assert c.Look(x).reserved || GoodTag(c.Look(x).tag, true);
    }
  }

  lemma {:induction false} LastPassIsSound(lines: seq<Line>, st: State, setup: Setup)
    requires GoodState(st, setup) && GoodLines(lines) && HomeOrgs(lines, st.cur) && LabelsKnown(lines, st, setup)
    ensures AllSound(lines, st, setup)
    decreases |lines|
  {
    if lines != [] {
      assert lines[0] in lines;
      LineIsSound(lines[0], st, setup);
      StepIsGood(lines[0], st, setup, true);
      StepCur(lines[0], st, setup, true);
      LabelsStayKnown(lines, lines[0], st, setup);
      LastPassIsSound(lines[1..], Step(lines[0], st, setup, true), setup);
    }
  }

  /** The first pass leaves good symbols, and every label defined. */
  lemma LastPassStarts(lines: seq<Line>, symbols: map<string, Symbol>, setup: Setup)
    requires GoodState(Start(symbols), setup) && GoodLines(lines) && HomeOrgs(lines, 0) && AllFresh(lines, Start(symbols), setup)
    ensures GoodState(Start(Run(lines, Start(symbols), setup, false).symbols), setup)
    ensures LabelsKnown(lines, Start(Run(lines, Start(symbols), setup, false).symbols), setup)
  {
    var f := Run(lines, Start(symbols), setup, false);
    var b := Start(f.symbols);
    FirstPassIsGood(lines, Start(symbols), setup);
    forall x
      ensures GoodSymbol(Look(x, b, setup))
    {
      assert Look(x, b, setup) == Look(x, f, setup) && GoodSymbol(Look(x, f, setup));
    }
    forall l <- lines | l.lab.Some?
      ensures Look(l.lab.value, b, setup).known
    {
      RunDefines(lines, Start(symbols), setup, false, l.lab.value);
      assert Look(l.lab.value, b, setup) == Look(l.lab.value, f, setup);
    }
  }

  /** A program with ORG under LOC 0 only: whatever its last pass accepts is right for every placement. */
  lemma ProgramIsSound(lines: seq<Line>, symbols: map<string, Symbol>, setup: Setup)
    requires GoodState(Start(symbols), setup) && GoodLines(lines) && HomeOrgs(lines, 0) && AllFresh(lines, Start(symbols), setup)
    ensures AllSound(lines, Start(Run(lines, Start(symbols), setup, false).symbols), setup)
  {
    LastPassStarts(lines, symbols, setup);
    LastPassIsSound(lines, Start(Run(lines, Start(symbols), setup, false).symbols), setup);
  }
}
