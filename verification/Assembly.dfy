/** One pass over the source lines (as/assemble.c:84-176, as/mops.c:43-133, as/pops.c):
    labels, instructions, data, location counters. */
module Assembly {
  import opened Prelude
  import opened AsmExpression
  import opened OperandReader

  /** The part of a line after its label. `memory` is set for the operations that
      have no direct mode, `short` and `long` for operands marked < and >. */
  datatype Body =
    | Nothing
    | Inherent
    | Memory(memory: bool, short: bool, long: bool, e: Expr)
    | Indexed(e: Expr)
    | Immediate(wide: bool, e: Expr)
    | Branch(e: Expr)
    | Bytes(es: seq<Expr>)
    | Words(es: seq<Expr>)
    | Space(e: Expr)
    | Align(e: Expr)
    | Org(e: Expr)
    | Loc(seg: bv4)
    | Equ(e: Expr)
    | Import(name: string)

  datatype Line = Line(lab: Option<string>, body: Body)

  /** A location counter and how it is bound. */
  datatype Counter = Counter(lc: int, tag: Tag)

  /** The symbol table, the current location counter, the current entry of the
      location counter table and the table itself; `unstable` is set when a label
      moves in the last pass. */
  datatype State = State(symbols: map<string, Symbol>, here: Counter, cur: bv4, saved: seq<Counter>, unstable: bool)
  {
    predicate Valid() {
      |saved| == 16
    }
  }

  /** The first line of a pass: all counters are relocatable and 0. */
  function Start(symbols: map<string, Symbol>): State {
    var zero := Counter(0, Tag(true, 0, false, false, false));
    State(symbols, zero, 0, seq(16, _ => zero), false)
  }

  /** What stays the same during a run. */
  datatype Setup = Setup(initial: Tag, dirpag: int)

  function ContextOf(st: State, setup: Setup, last: bool): Context {
    Context(st.symbols, setup.initial, st.here.lc, st.here.tag, last)
  }

  function Look(x: string, st: State, setup: Setup): Symbol {
    ContextOf(st, setup, false).Look(x)
  }

  // ---- labels

  /** A label takes the location counter, and keeps the mark of an earlier use. In the
      first pass a label that is already defined is left alone. */
  function Place(x: string, st: State, setup: Setup, last: bool): State {
    var s := Look(x, st, setup);
    if s.known && !last then st
    else st.(symbols := st.symbols[x := s.(tag := st.here.tag.(fwd := s.tag.fwd || st.here.tag.fwd), value := st.here.lc)])
  }

  /** At the end of the line the label is defined. In the last pass it must not have
      moved. */
  function Confirm(x: string, was: int, st: State, setup: Setup, last: bool): State {
    var s := Look(x, st, setup);
    st.(symbols := st.symbols[x := s.(known := true)], unstable := st.unstable || (last && s.value != was))
  }

  // ---- operands

  function Operands(b: Body): seq<Expr> {
    match b
    case Memory(_, _, _, e) => [e]
    case Indexed(e) => [e]
    case Immediate(_, e) => [e]
    case Branch(e) => [e]
    case Bytes(es) => es
    case Words(es) => es
    case Space(e) => [e]
    case Align(e) => [e]
    case Org(e) => [e]
    case Equ(e) => [e]
    case _ => []
  }

  /** Reading operands marks names that are used before their definition. */
  function Marked(es: seq<Expr>, c: Context): Context {
    if es == [] then c else Marked(es[1..], MarkAll(es[0], c))
  }

  function Mentioned(es: seq<Expr>, st: State, setup: Setup): State {
    st.(symbols := Marked(es, ContextOf(st, setup, false)).symbols)
  }

  /** Direct addressing needs an absolute operand that is known in the first pass and
      lies in the direct page. */
  predicate Direct(b: Body, c: Context, dirpag: int)
    requires b.Memory?
  {
    var v := Eval(b.e, c);
    !b.memory && (b.short || (!b.long && !v.tag.fwd && !v.tag.rel && v.offset / 256 == dirpag))
  }

  /** `absexpres` */
  function Absolute(e: Expr, c: Context): Value {
    MustBeAbsolute(Eval(e, c), c.last)
  }

  /** How far a line moves the location counter. */
  function Size(b: Body, c: Context, dirpag: int): int {
    match b
    case Inherent => 1
    case Memory(_, _, _, _) => if Direct(b, c, dirpag) then 2 else 3
    case Indexed(_) => 2
    case Immediate(wide, _) => if wide then 3 else 2
    case Branch(_) => 2
    case Bytes(es) => |es|
    case Words(es) => 2 * |es|
    case Space(e) => if c.lcTag.und || Absolute(e, c).tag.und then 0 else Absolute(e, c).offset
    case Align(e) => if c.lcTag.und then 0 else AlignSize(Absolute(e, c), c.lc)
    case _ => 0
  }

  function AlignSize(v: Value, lc: int): int {
    if v.tag.und || v.offset <= 0 || lc % v.offset == 0 then 0 else v.offset - lc % v.offset
  }

  // ---- bodies

  /** `setloc` */
  function SwitchTo(seg: bv4, st: State): State
    requires st.Valid()
  {
    var saved := st.saved[st.cur as nat := st.here];
    st.(cur := seg, saved := saved, here := saved[seg as nat].(tag := saved[seg as nat].tag.(seg := seg)))
  }

  /** `porg` */
  function OrgTo(v: Value, st: State): State {
    st.(here := Counter(if v.tag.und then st.here.lc else v.offset, v.tag))
  }

  /** `doequset`: the label takes the value, and keeps the mark of an earlier use. */
  function Equate(x: string, v: Value, st: State, setup: Setup): State {
    var s := Look(x, st, setup);
    var tag := if v.tag.imp then UNDEFINED else v.tag;
    st.(symbols := st.symbols[x := s.(tag := tag.(fwd := tag.fwd || s.tag.fwd), value := v.offset)])
  }

  /** `pimport` */
  function Imported(x: string, st: State, setup: Setup): State {
    var s := Look(x, st, setup);
    if s.known || s.reserved || (s.tag.imp && !s.tag.und && Differ(s.tag, st.here.tag)) then st
    else st.(symbols := st.symbols[x := s.(tag := st.here.tag.(fwd := true, imp := true, rel := true))])
  }

  function Bind(v: Value, st: State): State {
    st.(here := Counter(st.here.lc, Join(st.here.tag, v.tag)))
  }

  /** What a directive does besides moving on. */
  function Directive(l: Line, c: Context, st: State, setup: Setup): State
    requires st.Valid()
  {
    match l.body
    case Space(e) => Bind(Absolute(e, c), st)
    case Align(e) => Bind(Absolute(e, c), st)
    case Org(e) => OrgTo(Absolute(e, c), st)
    case Loc(seg) => SwitchTo(seg, st)
    case Equ(e) => if l.lab.Some? then Equate(l.lab.value, Eval(e, c), st, setup) else st
    case Import(x) => Imported(x, st, setup)
    case _ => st
  }

  // ---- lines

  function Known(x: string, st: State, setup: Setup): State {
    st.(symbols := st.symbols[x := Look(x, st, setup).(known := true)])
  }

  /** The label is placed; EQU already counts as its definition. */
  function Opened(l: Line, st: State, setup: Setup, last: bool): State {
    if l.lab.None? then st
    else
      var placed := Place(l.lab.value, st, setup, last);
      if l.body.Equ? then Known(l.lab.value, placed, setup) else placed
  }

  function Advance(n: int, st: State): State {
    st.(here := st.here.(lc := Wrap(st.here.lc + n)))
  }

  /** The operands, the directive, and the bytes of the line. */
  function Middle(l: Line, st: State, setup: Setup, last: bool): State
    requires st.Valid()
  {
    var c := ContextOf(st, setup, last);
    Advance(Size(l.body, c, setup.dirpag), Directive(l, c, Mentioned(Operands(l.body), st, setup), setup))
  }

  function Step(l: Line, st: State, setup: Setup, last: bool): (r: State)
    requires st.Valid()
    ensures r.Valid()
  {
    var done := Middle(l, Opened(l, st, setup, last), setup, last);
    if l.lab.None? then done
    else Confirm(l.lab.value, Look(l.lab.value, st, setup).value, done, setup, last)
  }

  function Run(lines: seq<Line>, st: State, setup: Setup, last: bool): (r: State)
    requires st.Valid()
    ensures r.Valid()
    decreases |lines|
  {
    if lines == [] then st else Run(lines[1..], Step(lines[0], st, setup, last), setup, last)
  }
}
