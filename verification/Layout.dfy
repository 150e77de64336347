/** One layout pass of ld/script.c as a function from the state before it to the
    state after it: expression evaluation, the walk of a section's statements
    with its gaps, padding and ONEPAGE moves, sections, regions and symbols.
    `None` is a fatal script error. */
module Layout {
  import opened Prelude
  import opened ScriptSyntax

  /** The variables that a pass reads and writes. */
  datatype Cell =
    | SymbolValue(name: string)
    | Vma(sect: string) | Lma(sect: string) | Size(sect: string)
    | PieceVma(piece: nat) | PiecePad(piece: nat) | PieceFill(piece: nat)
    | Org(region: string) | Len(region: string) | Cursor(region: string)

  /** A gap to fill, or BYTE/WORD data. */
  datatype Extra = Extra(sect: Option<string>, vma: int, len: int, value: int, data: bool)

  /** `prev` is what `remember` stored after the pass before. */
  datatype State = State(
    dot: int, fill: int, store: map<Cell, int>, prev: map<Cell, int>,
    bound: set<string>, cur: Option<string>,
    extras: seq<Extra>, failed: Option<string>)

  const INITIAL := State(0, 0, map[], map[], {}, None, [], None)

  /** A symbol that a loaded module defines: absolute, or at an offset in one of
      the module's input sections. */
  datatype ModSymbol = AbsSymbol(value: int) | PieceSymbol(piece: nat, offset: int)

  /** A symbol that the script assigns, with the kinds of assignment it has. */
  datatype ScriptSymbol = ScriptSymbol(plain: bool, provide: bool, hidden: bool, moddef: bool)

  /** The script and what the link knows before layout.  `sizes` are the input
      sections' sizes, `commons` the input sections that are common blocks, and
      `base` holds the -T and -D addresses by section name. */
  datatype Program = Program(
    top: seq<Top>, regions: seq<Region>, globalFill: Option<Expr>,
    symbols: map<string, ScriptSymbol>, modSymbols: map<string, ModSymbol>,
    moddefined: set<string>, sizes: seq<nat>, commons: set<nat>, base: map<string, int>,
    binary: bool, sepid: bool)
  {
    function PieceSize(p: nat): nat {
      if p < |sizes| then sizes[p] else 0
    }

    predicate HasSection(name: string) {
      exists s <- SectionsOf(top) :: s.name == name
    }

    predicate HasRegion(name: string) {
      exists r <- regions :: r.name == name
    }

    /** The script's own value of the name is used. */
    predicate ScriptOwns(name: string) {
      name in symbols &&
      var ss := symbols[name];
      ss.plain || ss.hidden || (ss.provide && !ss.moddef)
    }
  }

  /** The input section of a loaded module's segment, and the common section after it
      (ld/script.c:1852-1874). */
  function DataPiece(k: nat, seg: nat): nat {
    2 * NSEG * k + 2 * seg
  }

  function CommonPiece(k: nat, seg: nat): nat {
    DataPiece(k, seg) + 1
  }

  // ---- C arithmetic on long

  function Signed64(u: int): int {
    if u < 0x8000_0000_0000_0000 then u else u - 0x1_0000_0000_0000_0000
  }

  predicate PowerOfTwo(n: int) {
    n == 1 || (n > 1 && n % 2 == 0 && PowerOfTwo(n / 2))
  }

  /** C division truncates toward zero. */
  function TruncDiv(a: int, b: int): int
    requires b != 0
  {
    if a >= 0 then a / b else -((-a) / b)
  }

  function Truth(b: bool): int {
    if b then 1 else 0
  }

  function ApplyUnary(op: UnaryOp, a: int): int {
    match op
    case Neg => -a
    case Compl => (-1 - a) % 0x10000
    case Not => Truth(a == 0)
  }

  function ApplyBinary(op: BinaryOp, a: int, b: int): Option<int> {
    match op
    case LOr => Some(Truth(a != 0 || b != 0))
    case LAnd => Some(Truth(a != 0 && b != 0))
    case BitOr => Some(Signed64(LowBits(OrFn, a, b, 64)))
    case BitXor => Some(Signed64(LowBits(XorFn, a, b, 64)))
    case BitAnd => Some(Signed64(LowBits(AndFn, a, b, 64)))
    case Eq => Some(Truth(a == b))
    case Ne => Some(Truth(a != b))
    case Lt => Some(Truth(a < b))
    case Le => Some(Truth(a <= b))
    case Gt => Some(Truth(a > b))
    case Ge => Some(Truth(a >= b))
    case Shl => if 0 <= b < 64 then Some(a * Pow2(b)) else None
    case Shr => if 0 <= b < 64 then Some(a / Pow2(b)) else None
    case Add => Some(a + b)
    case Sub => Some(a - b)
    case Mul => Some(a * b)
    case Div => if b == 0 then None else Some(TruncDiv(a, b))
    case Mod => if b == 0 then None else Some(a - b * TruncDiv(a, b))
  }

  function AlignUp(value: int, n: int): Option<int> {
    if PowerOfTwo(n) then Some((value + n - 1) / n * n) else None
  }

  function ApplyPair(f: PairFn, a: int, b: int): Option<int> {
    match f
    case ALIGN => AlignUp(a, b)
    case MAX => Some(if a > b then a else b)
    case MIN => Some(if a < b then a else b)
  }

  // ---- evaluation

  /** A symbol not yet assigned in this pass has its value from the pass before. */
  function Value(c: Cell, st: State): int {
    if c.SymbolValue? && c.name !in st.bound then At(st.prev, c) else At(st.store, c)
  }

  function SymbolRef(name: string, prog: Program, st: State): Option<int> {
    if prog.ScriptOwns(name) then Some(Value(SymbolValue(name), st))
    else if name !in prog.modSymbols then None
    else
      match prog.modSymbols[name]
      case AbsSymbol(v) => Some(v)
      case PieceSymbol(p, off) => Some(Value(PieceVma(p), st) + off)
  }

  function NameRef(f: NameFn, arg: string, prog: Program, st: State): Option<int> {
    match f
    case DEFINED =>
      Some(Truth((arg in prog.symbols && arg in st.bound) || arg in prog.moddefined))
    case ORIGIN => if prog.HasRegion(arg) then Some(Value(Org(arg), st)) else None
    case LENGTH => if prog.HasRegion(arg) then Some(Value(Len(arg), st)) else None
    case ADDR => if prog.HasSection(arg) then Some(Value(Vma(arg), st)) else None
    case LOADADDR => if prog.HasSection(arg) then Some(Value(Lma(arg), st)) else None
    case SIZEOF =>
      if !prog.HasSection(arg) then None
      else if st.cur == Some(arg) then Some(st.dot - Value(Vma(arg), st))
      else Some(Value(Size(arg), st))
  }

  function Eval(e: Expr, prog: Program, st: State): Option<int> {
    match e
    case Num(n) => Some(n)
    case Dot => Some(st.dot)
    case Sym(name) => SymbolRef(name, prog, st)
    case OfName(f, arg) => NameRef(f, arg, prog, st)
    case AlignDot(a) =>
      var n :- Eval(a, prog, st);
      AlignUp(st.dot, n)
    case OfPair(f, a, b) =>
      var x :- Eval(a, prog, st);
      var y :- Eval(b, prog, st);
      ApplyPair(f, x, y)
    case Cond(a, b, c) =>
      var x :- Eval(a, prog, st);
      if x != 0 then Eval(b, prog, st) else Eval(c, prog, st)
    case Unary(op, a) =>
      var x :- Eval(a, prog, st);
      Some(ApplyUnary(op, x))
    case Binary(op, a, b) =>
      var x :- Eval(a, prog, st);
      if op == LAnd && x == 0 then Some(0)
      else if op == LOr && x != 0 then Some(1)
      else
        var y :- Eval(b, prog, st);
        ApplyBinary(op, x, y)
  }

  // ---- statements

  function Write(c: Cell, v: int, st: State): State {
    st.(store := st.store[c := v])
  }

  /** Fill the gap from here to `to`, if the fill byte is not zero. */
  function Gap(to: int, st: State): State {
    if to > st.dot && st.fill != 0 && st.cur.Some?
    then st.(extras := st.extras + [Extra(st.cur, st.dot, to - st.dot, st.fill, false)])
    else st
  }

  function AssignSymbol(kind: AssignKind, x: string, e: Expr, prog: Program, st: State): Option<State> {
    if kind == Provide && x in prog.symbols && (prog.symbols[x].plain || prog.symbols[x].moddef) then Some(st)
    else
      var v :- Eval(e, prog, st);
      Some(Write(SymbolValue(x), v, st).(bound := st.bound + {x}))
  }

  function FillByte(e: Expr, prog: Program, st: State): Option<int> {
    var v :- Eval(e, prog, st);
    if v < -128 || v > 255 then None else Some(v % 256)
  }

  predicate FitsWidth(v: int, width: nat) {
    if width == 1 then -128 <= v <= 255 else -32768 <= v <= 65535
  }

  function CheckAssert(e: Expr, message: string, prog: Program, st: State): Option<State> {
    var v :- Eval(e, prog, st);
    Some(if v == 0 && st.failed.None? then st.(failed := Some(message)) else st)
  }

  function MoveDot(e: Expr, prog: Program, st: State): Option<State> {
    var v :- Eval(e, prog, st);
    if v < st.dot then None else Some(Gap(v, st).(dot := v))
  }

  function PutData(width: nat, e: Expr, prog: Program, st: State): Option<State> {
    var v :- Eval(e, prog, st);
    if !FitsWidth(v, width) then None
    else Some(st.(extras := st.extras + [Extra(st.cur, st.dot, width, v, true)], dot := st.dot + width))
  }

  function SetFill(e: Expr, prog: Program, st: State): Option<State> {
    var v :- FillByte(e, prog, st);
    Some(st.(fill := v))
  }

  /** SUBALIGN padding after an input section of the given size. */
  function PadFor(size: nat, sub: pos): nat {
    (sub - size % sub) % sub
  }

  function PlacePiece(p: nat, sub: pos, prog: Program, st: State): State {
    var size := prog.PieceSize(p);
    var pad := PadFor(size, sub);
    Write(PieceFill(p), st.fill, Write(PiecePad(p), pad, Write(PieceVma(p), st.dot, st)))
      .(dot := st.dot + size + pad)
  }

  function PlacePieces(ps: seq<nat>, sub: pos, prog: Program, st: State): State {
    if ps == [] then st else PlacePieces(ps[1..], sub, prog, PlacePiece(ps[0], sub, prog, st))
  }

  function PageUp(a: int): int {
    (a + 255) / 256 * 256
  }

  /** The block's start, and its start plus its size, are on different pages. */
  predicate CrossesPage(start: int, end: int) {
    start / 256 != end / 256
  }

  /** Back at the start of a ONEPAGE block, moved to the next page. */
  function MoveToPage(before: State, walked: State): State {
    Gap(PageUp(before.dot),
        walked.(extras := before.extras, fill := before.fill, dot := before.dot)).(dot := PageUp(before.dot))
  }

  function Exec(s: Stmt, sub: pos, prog: Program, st: State): Option<State>
    requires !s.End?
    decreases s, 0
  {
    match s
    case Assign(kind, x, e, _) => AssignSymbol(kind, x, e, prog, st)
    case SetDot(e, _) => MoveDot(e, prog, st)
    case Data(width, e, _) => PutData(width, e, prog, st)
    case Fill(e, _) => SetFill(e, prog, st)
    case Assert(e, message, _) => CheckAssert(e, message, prog, st)
    case Input(_, _, pieces, _) => Some(PlacePieces(pieces, sub, prog, st))
    case OnePage(body, _) =>
      var walked :- Walk(body, sub, prog, st);
      if walked.dot - st.dot > 256 then None
      else if CrossesPage(st.dot, walked.dot) then Walk(body, sub, prog, MoveToPage(st, walked))
      else Some(walked)
  }

  function Walk(s: Stmt, sub: pos, prog: Program, st: State): Option<State>
    decreases s, 1
  {
    if s.End? then Some(st)
    else
      var st' :- Exec(s, sub, prog, st);
      Walk(s.next, sub, prog, st')
  }

  // ---- sections and the whole pass

  function Start(sect: Section, prog: Program, st: State): Option<int> {
    var start :- if sect.addr.Some? then Eval(sect.addr.value, prog, st)
                 else if sect.region.Some? then Some(Value(Cursor(sect.region.value), st))
                 else Some(st.dot);
    var based := if sect.name in prog.base then prog.base[sect.name] else start;
    if sect.align.None? then Some(based)
    else
      var n :- Eval(sect.align.value, prog, st);
      AlignUp(based, n)
  }

  function SubAlign(sect: Section, prog: Program, st: State): Option<pos> {
    if sect.subalign.None? then Some(1)
    else
      var n :- Eval(sect.subalign.value, prog, st);
      if PowerOfTwo(n) then Some(n) else None
  }

  function LoadAddress(sect: Section, start: int, prog: Program, st: State): Option<int> {
    if sect.at.Some? then Eval(sect.at.value, prog, st)
    else if sect.lmaRegion.Some? then Some(Value(Cursor(sect.lmaRegion.value), st))
    else Some(start)
  }

  function SectionFill(sect: Section, prog: Program, st: State): Option<int> {
    if sect.fill.Some? then FillByte(sect.fill.value, prog, st)
    else if prog.globalFill.Some? then FillByte(prog.globalFill.value, prog, st)
    else Some(0)
  }

  /** The section's address, load address and fill byte, before its body. */
  function OpenSection(sect: Section, prog: Program, st: State): Option<(State, pos)> {
    var here := st.(cur := Some(sect.name));
    var start :- Start(sect, prog, here);
    var sub :- SubAlign(sect, prog, here);
    var placed := Write(Vma(sect.name), start, here);
    var lma :- LoadAddress(sect, start, prog, placed);
    var loaded := Write(Lma(sect.name), lma, placed);
    var fill :- SectionFill(sect, prog, loaded);
    Some((loaded.(fill := fill, dot := start), sub))
  }

  function Advance(region: Option<string>, end: int, st: State): State {
    if region.Some? && end > Value(Cursor(region.value), st)
    then Write(Cursor(region.value), end, st)
    else st
  }

  function CloseSection(sect: Section, st: State): State {
    var start := Value(Vma(sect.name), st);
    var sized := Write(Size(sect.name), st.dot - start, st);
    var lma := Value(Lma(sect.name), sized);
    Advance(sect.lmaRegion, lma + (st.dot - start), Advance(sect.region, st.dot, sized)).(cur := None)
  }

  function LayoutSection(sect: Section, prog: Program, st: State): Option<State> {
    var (begun, sub) :- OpenSection(sect, prog, st);
    var walked :- Walk(sect.body, sub, prog, begun);
    Some(CloseSection(sect, walked))
  }

  function ExecTop(t: Top, prog: Program, st: State): Option<State> {
    match t
    case TopSection(sect) => LayoutSection(sect, prog, st)
    case TopAssign(kind, x, e) => AssignSymbol(kind, x, e, prog, st)
    case TopDot(e) =>
      var v :- Eval(e, prog, st);
      Some(st.(dot := v))
    case TopAssert(e, message) => CheckAssert(e, message, prog, st)
  }

  function RunTop(top: seq<Top>, prog: Program, st: State): Option<State> {
    if top == [] then Some(st)
    else
      var st' :- ExecTop(top[0], prog, st);
      RunTop(top[1..], prog, st')
  }

  function SetRegion(r: Region, prog: Program, st: State): Option<State> {
    var org :- Eval(r.origin, prog, st);
    var withOrg := Write(Org(r.name), org, st);
    var len :- Eval(r.length, prog, withOrg);
    Some(Write(Cursor(r.name), org, Write(Len(r.name), len, withOrg)))
  }

  function SetRegions(rs: seq<Region>, prog: Program, st: State): Option<State> {
    if rs == [] then Some(st)
    else
      var st' :- SetRegion(rs[0], prog, st);
      SetRegions(rs[1..], prog, st')
  }

  function Reset(st: State): State {
    st.(dot := 0, bound := {}, cur := None, extras := [], failed := None)
  }

  function Pass(prog: Program, st: State): Option<State> {
    var ready :- SetRegions(prog.regions, prog, Reset(st));
    RunTop(prog.top, prog, ready)
  }

  // ---- repeating passes

  /** What `remember` compares: the sections, the script's symbols, the pieces. */
  predicate Observed(c: Cell, prog: Program) {
    match c
    case SymbolValue(x) => x in prog.symbols
    case Vma(s) => prog.HasSection(s)
    case Lma(s) => prog.HasSection(s)
    case Size(s) => prog.HasSection(s)
    case PieceVma(p) => p < |prog.sizes|
    case _ => false
  }

  ghost predicate Unchanged(prog: Program, st: State) {
    forall c | Observed(c, prog) :: At(st.store, c) == At(st.prev, c)
  }

  function Remember(st: State): State {
    st.(prev := st.store)
  }

  const MAXPASSES := 10
}
