/** Programs outside the conditions of the two-pass and tagging theorems. */
module AssemblyExamples {
  import opened Prelude
  import opened AsmExpression
  import opened OperandReader
  import opened Assembly
  import opened TwoPass
  import opened AssemblyTags

  const SETUP := Setup(Tag(true, 0, false, false, true), 0)

  const RELOCATABLE := Tag(true, 0, false, false, false)

  // ---- a comparison of a forward reference

  /** Whether x equals y decides the size of this instruction. */
  const COMPARE := Memory(false, false, false, Bin(Eq, Id("x"), Id("y")))

  const DEFINE_Y := Line(Some("y"), Nothing)

  const USE_X := Line(None, COMPARE)

  const DEFINE_X := Line(Some("x"), Nothing)

  function Labelled(st: State, x: string, tag: Tag, value: int): State {
    st.(symbols := st.symbols[x := Symbol(true, false, tag, value)])
  }

  lemma PlainLabel(x: string, st: State, last: bool)
    requires st.Valid() && InRange(st.here.lc) && !Look(x, st, SETUP).reserved && (!Look(x, st, SETUP).known || last)
    ensures Step(Line(Some(x), Nothing), st, SETUP, last)
         == Labelled(st, x, st.here.tag.(fwd := Look(x, st, SETUP).tag.fwd || st.here.tag.fwd), st.here.lc)
              .(unstable := st.unstable || (last && st.here.lc != Look(x, st, SETUP).value))
  {
    var l := Line(Some(x), Nothing);
    var begun := Opened(l, st, SETUP, last);
    assert Mentioned([], begun, SETUP) == begun;
    assert Middle(l, begun, SETUP, last) == begun;
  }

  /** The comparison loses the mark of the forward reference. */
  lemma CompareSize(st: State, last: bool)
    requires Look("y", st, SETUP) == Symbol(true, false, RELOCATABLE, 0) && !Look("x", st, SETUP).reserved
    requires Look("x", st, SETUP).tag.rel && Look("x", st, SETUP).tag.seg == 0 && !Look("x", st, SETUP).tag.imp
    requires last ==> !Look("x", st, SETUP).tag.und
    ensures Size(COMPARE, ContextOf(st, SETUP, last), 0) == if Look("x", st, SETUP).value == 0 then 3 else 2
  {
    var c := ContextOf(st, SETUP, last);
    var x, y := EvalId("x", c), EvalId("y", c);
    assert c.Look("x") == Look("x", st, SETUP) && c.Look("y") == Look("y", st, SETUP);
    assert x.offset == c.Look("x").value && x.tag.rel && x.tag.seg == 0 && !x.tag.imp;
    assert y == Value(0, RELOCATABLE, None, false);
    assert Eval(COMPARE.e, c) == Combine(Eq, x, y, last);
    var v := Eval(COMPARE.e, c);
    assert !v.tag.fwd && !v.tag.rel;
    assert v.offset == if x.offset == 0 then W - 1 else 0;
  }

  lemma UseStep(st: State, last: bool, n: int)
    requires st.Valid() && n == Size(COMPARE, ContextOf(st, SETUP, last), 0)
    ensures Step(USE_X, st, SETUP, last) == Advance(n, Mentioned([COMPARE.e], st, SETUP))
  {
  }

  /** After the first pass x is 3. */
  predicate Compared(st: State) {
    && Look("y", st, SETUP) == Symbol(true, false, RELOCATABLE, 0)
    && Look("x", st, SETUP) == Symbol(true, false, RELOCATABLE.(fwd := true), 3)
  }

  lemma ComparedFirst(lines: seq<Line>)
    requires lines == [DEFINE_Y, USE_X, DEFINE_X]
    ensures Compared(Run(lines, Start(map[]), SETUP, false))
  {
    var s := Start(map[]);
    PlainLabel("y", s, false);
    var s1 := Step(DEFINE_Y, s, SETUP, false);
    CompareSize(s1, false);
    UseStep(s1, false, 3);
    var s2 := Step(USE_X, s1, SETUP, false);
    MentionedMarks([COMPARE.e], s1, SETUP, "x");
    MentionedMarks([COMPARE.e], s1, SETUP, "y");
    PlainLabel("x", s2, false);
    ThreeLines(lines, s, s1, s2, Step(DEFINE_X, s2, SETUP, false), false);
  }

  lemma ComparedLast(lines: seq<Line>, b: State)
    requires lines == [DEFINE_Y, USE_X, DEFINE_X] && Compared(b) && b == Start(b.symbols)
    ensures Run(lines, b, SETUP, true).unstable
  {
    PlainLabel("y", b, true);
    var b1 := Step(DEFINE_Y, b, SETUP, true);
    CompareSize(b1, true);
    UseStep(b1, true, 2);
    var b2 := Step(USE_X, b1, SETUP, true);
    MentionedMarks([COMPARE.e], b1, SETUP, "x");
    PlainLabel("x", b2, true);
    ThreeLines(lines, b, b1, b2, Step(DEFINE_X, b2, SETUP, true), true);
  }

  /** The label after the instruction moves in the last pass. */
  lemma ComparedForwardIsUnstable(lines: seq<Line>)
    requires lines == [DEFINE_Y, USE_X, DEFINE_X]
    ensures Run(lines, Start(Run(lines, Start(map[]), SETUP, false).symbols), SETUP, true).unstable
  {
    ComparedFirst(lines);
    var f := Run(lines, Start(map[]), SETUP, false);
    assert Look("x", Start(f.symbols), SETUP) == Look("x", f, SETUP);
    assert Look("y", Start(f.symbols), SETUP) == Look("y", f, SETUP);
    ComparedLast(lines, Start(f.symbols));
  }

  lemma ThreeLines(lines: seq<Line>, s: State, s1: State, s2: State, s3: State, last: bool)
    requires |lines| == 3 && s.Valid() && s1 == Step(lines[0], s, SETUP, last)
    requires s2 == Step(lines[1], s1, SETUP, last) && s3 == Step(lines[2], s2, SETUP, last)
    ensures Run(lines, s, SETUP, last) == s3
  {
    assert lines[1..][1..] == lines[2..] && lines[2..][1..] == [];
    assert Run(lines[2..], s2, SETUP, last) == s3;
    assert Run(lines[1..], s1, SETUP, last) == s3;
  }

  // ---- space whose size is defined later

  const RESERVE := Line(None, Space(Id("n")))

  const DEFINE_N := Line(Some("n"), Equ(Number(5)))

  predicate Reserved(st: State) {
    && Look("x", st, SETUP).known && !Look("x", st, SETUP).reserved && Look("x", st, SETUP).value == 0
    && Look("n", st, SETUP) == Symbol(true, false, ABSOLUTE.(fwd := true), 5)
  }

  lemma ReservedFirst(lines: seq<Line>)
    requires lines == [RESERVE, DEFINE_X, DEFINE_N]
    ensures Reserved(Run(lines, Start(map[]), SETUP, false))
  {
    var s := Start(map[]);
    var s1 := Step(RESERVE, s, SETUP, false);
    MentionedMarks([Id("n")], s, SETUP, "n");
    MentionedMarks([Id("n")], s, SETUP, "x");
    assert s1.here.lc == 0;
    PlainLabel("x", s1, false);
    var s2 := Step(DEFINE_X, s1, SETUP, false);
    EquStep(DEFINE_N, s2, SETUP, false, "n", Value(5, ABSOLUTE, None, false));
    StepTouches(DEFINE_N, s2, SETUP, false, "x");
    ThreeLines(lines, s, s1, s2, Step(DEFINE_N, s2, SETUP, false), false);
  }

  lemma ReservedLast(lines: seq<Line>, b: State)
    requires lines == [RESERVE, DEFINE_X, DEFINE_N] && Reserved(b) && b == Start(b.symbols)
    ensures Run(lines, b, SETUP, true).unstable
  {
    var b1 := Step(RESERVE, b, SETUP, true);
    MentionedMarks([Id("n")], b, SETUP, "x");
    assert b1.here.lc == 5;
    PlainLabel("x", b1, true);
    var b2 := Step(DEFINE_X, b1, SETUP, true);
    ThreeLines(lines, b, b1, b2, Step(DEFINE_N, b2, SETUP, true), true);
  }

  /** The first pass leaves no space, the last pass leaves five bytes. */
  lemma ForwardSpaceIsUnstable(lines: seq<Line>)
    requires lines == [RESERVE, DEFINE_X, DEFINE_N]
    ensures Run(lines, Start(Run(lines, Start(map[]), SETUP, false).symbols), SETUP, true).unstable
  {
    ReservedFirst(lines);
    var f := Run(lines, Start(map[]), SETUP, false);
    assert Look("x", Start(f.symbols), SETUP) == Look("x", f, SETUP);
    assert Look("n", Start(f.symbols), SETUP) == Look("n", f, SETUP);
    ReservedLast(lines, Start(f.symbols));
  }

  // ---- ORG under a non-zero LOC

  /** LOC 3, ORG 0, LOC 0, LOC 3: the location counter is absolute, in segment 3. */
  lemma OrgLeavesSegment(st: State, last: bool, lines: seq<Line>)
    requires st == Start(st.symbols)
    requires lines == [Line(None, Loc(3)), Line(None, Org(Number(0))), Line(None, Loc(0)), Line(None, Loc(3))]
    ensures Run(lines, st, SETUP, last).here == Counter(0, ABSOLUTE.(seg := 3))
    ensures Run(lines, st, SETUP, last).symbols == st.symbols
  {
    var s1 := Step(lines[0], st, SETUP, last);
    LocStep(3, st, last);
    var s2 := Step(lines[1], s1, SETUP, last);
    OrgStep(s1, last);
    var s3 := Step(lines[2], s2, SETUP, last);
    LocStep(0, s2, last);
    var s4 := Step(lines[3], s3, SETUP, last);
    LocStep(3, s3, last);
    assert lines[1..][1..] == lines[2..] && lines[2..][1..] == lines[3..] && lines[3..][1..] == [];
    assert Run(lines[3..], s3, SETUP, last) == s4;
    assert Run(lines[2..], s2, SETUP, last) == s4;
    assert Run(lines[1..], s1, SETUP, last) == s4;
  }

  lemma OrgStep(st: State, last: bool)
    requires st.Valid()
    ensures Step(Line(None, Org(Number(0))), st, SETUP, last) == st.(here := Counter(0, ABSOLUTE))
  {
    var c := ContextOf(st, SETUP, false);
    assert [Number(0)][1..] == [];
    assert Marked([Number(0)], c) == Marked([], c);
    assert Mentioned([Number(0)], st, SETUP) == st;
  }

  lemma LocStep(seg: bv4, st: State, last: bool)
    requires st.Valid() && InRange(st.here.lc) && forall c <- st.saved :: InRange(c.lc)
    ensures Step(Line(None, Loc(seg)), st, SETUP, last) == SwitchTo(seg, st)
  {
  }

  /** There, with any relocatable label, some accepted operand is wrong for some placement. */
  lemma OrgMiscompiles(c: Context, x: string)
    requires c.last && Sane(c) && c.lcTag == ABSOLUTE.(seg := 3)
    requires Usable(c.Look(x)) && Moves(c.Look(x).tag)
    ensures exists e, p :: Miscompiled(e, c, p)
  {
    assert Mixed(c) && !GoodTag(c.lcTag, true);
    SoundExactlyWhenWellTagged(c);
  }
}
