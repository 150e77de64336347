/** How values flow through one layout pass.  A `View` says which cells must come
    out of the pass the same in two runs (`low`), and which cells the two runs
    already share before the pass writes them (`was`).  A script is checked once,
    statically, in script order; a checked script, run from two states that
    agree on the `was` cells, ends in two states that agree on the `low` cells. */
module InformationFlow {
  import opened Prelude
  import opened ScriptSyntax
  import opened Layout

  datatype View = View(prog: Program, low: Cell -> bool, was: Cell -> bool)

  /** What is known at a point of the pass: the cells written so far, the
      current section, and which of the scalar variables both runs share. */
  datatype Flow = Flow(wrote: set<Cell>, cur: Option<string>, dotLow: bool, fillLow: bool, auxLow: bool)

  ghost predicate Shared(c: Cell, f: Flow, v: View) {
    if c in f.wrote then v.low(c) else v.was(c)
  }

  ghost predicate SameCells(f: Flow, v: View, a: State, b: State) {
    forall c :: Shared(c, f, v) ==> Value(c, a) == Value(c, b)
  }

  ghost predicate Agree(f: Flow, v: View, a: State, b: State) {
    && (forall x :: x in a.bound <==> SymbolValue(x) in f.wrote)
    && a.bound == b.bound
    && a.cur == f.cur && b.cur == f.cur
    && (f.dotLow ==> a.dot == b.dot)
    && (f.fillLow ==> a.fill == b.fill)
    && (f.auxLow ==> a.extras == b.extras && a.failed == b.failed)
    && SameCells(f, v, a, b)
  }

  // ---- expressions

  ghost predicate LowSymbol(x: string, f: Flow, v: View) {
    if v.prog.ScriptOwns(x) then Shared(SymbolValue(x), f, v)
    else if x in v.prog.modSymbols && v.prog.modSymbols[x].PieceSymbol?
    then Shared(PieceVma(v.prog.modSymbols[x].piece), f, v)
    else true
  }

  ghost predicate LowName(nf: NameFn, arg: string, f: Flow, v: View) {
    match nf
    case DEFINED => true
    case ORIGIN => Shared(Org(arg), f, v)
    case LENGTH => Shared(Len(arg), f, v)
    case ADDR => Shared(Vma(arg), f, v)
    case LOADADDR => Shared(Lma(arg), f, v)
    case SIZEOF =>
      if f.cur == Some(arg) then f.dotLow && Shared(Vma(arg), f, v) else Shared(Size(arg), f, v)
  }

  ghost predicate LowExpr(e: Expr, f: Flow, v: View) {
    match e
    case Num(_) => true
    case Dot => f.dotLow
    case Sym(x) => LowSymbol(x, f, v)
    case OfName(nf, arg) => LowName(nf, arg, f, v)
    case AlignDot(a) => f.dotLow && LowExpr(a, f, v)
    case OfPair(_, a, b) => LowExpr(a, f, v) && LowExpr(b, f, v)
    case Cond(a, b, c) => LowExpr(a, f, v) && LowExpr(b, f, v) && LowExpr(c, f, v)
    case Unary(_, a) => LowExpr(a, f, v)
    case Binary(_, a, b) => LowExpr(a, f, v) && LowExpr(b, f, v)
  }

  lemma {:induction false} EvalAgrees(e: Expr, f: Flow, v: View, a: State, b: State)
    requires Agree(f, v, a, b) && LowExpr(e, f, v)
    ensures Eval(e, v.prog, a) == Eval(e, v.prog, b)
  {
    match e
    case Num(_) =>
    case Dot =>
    case Sym(x) =>
    case OfName(nf, arg) =>
    case AlignDot(x) => EvalAgrees(x, f, v, a, b);
    case OfPair(_, x, y) =>
      EvalAgrees(x, f, v, a, b);
      EvalAgrees(y, f, v, a, b);
    case Cond(x, y, z) =>
      EvalAgrees(x, f, v, a, b);
      EvalAgrees(y, f, v, a, b);
      EvalAgrees(z, f, v, a, b);
    case Unary(_, x) => EvalAgrees(x, f, v, a, b);
    case Binary(_, x, y) =>
      EvalAgrees(x, f, v, a, b);
      EvalAgrees(y, f, v, a, b);
  }

  // ---- the static check of statements

  /** A PROVIDE of a symbol that has another definition assigns nothing. */
  predicate Assigns(kind: AssignKind, x: string, prog: Program) {
    !(kind == Provide && x in prog.symbols && (prog.symbols[x].plain || prog.symbols[x].moddef))
  }

  function PieceCells(ps: seq<nat>): set<Cell> {
    if ps == [] then {}
    else {PieceVma(ps[0]), PiecePad(ps[0]), PieceFill(ps[0])} + PieceCells(ps[1..])
  }

  function AssignCells(kind: AssignKind, x: string, prog: Program): set<Cell> {
    if Assigns(kind, x, prog) then {SymbolValue(x)} else {}
  }

  /** The cells that one statement, or a statement list, writes. */
  function WrittenBy(s: Stmt, prog: Program): set<Cell>
    requires !s.End?
    decreases s, 0
  {
    match s
    case Assign(kind, x, _, _) => AssignCells(kind, x, prog)
    case Input(_, _, pieces, _) => PieceCells(pieces)
    case OnePage(body, _) => Written(body, prog)
    case _ => {}
  }

  function Written(s: Stmt, prog: Program): set<Cell>
    decreases s, 1
  {
    if s.End? then {} else WrittenBy(s, prog) + Written(s.next, prog)
  }

  ghost predicate Silent(cells: set<Cell>, v: View) {
    forall c <- cells :: !v.low(c)
  }

  ghost function CheckAssign(kind: AssignKind, x: string, e: Expr, f: Flow, v: View): Option<Flow> {
    if Assigns(kind, x, v.prog) && v.low(SymbolValue(x)) && !LowExpr(e, f, v) then None
    else Some(f.(wrote := f.wrote + AssignCells(kind, x, v.prog)))
  }

  ghost predicate PiecesOk(ps: seq<nat>, subLow: bool, f: Flow, v: View) {
    forall p <- ps ::
      && (v.low(PieceVma(p)) ==> f.dotLow && subLow)
      && (v.low(PiecePad(p)) ==> subLow)
      && (v.low(PieceFill(p)) ==> f.fillLow)
  }

  /** Before the second walk of a ONEPAGE block. */
  ghost function Moved(f: Flow, once: Flow): Flow {
    once.(dotLow := true, fillLow := f.fillLow, auxLow := f.auxLow && once.auxLow && f.fillLow)
  }

  /** What holds whether or not the block moved. */
  ghost function Meet(once: Flow, twice: Flow): Flow {
    Flow(once.wrote, once.cur, once.dotLow && twice.dotLow,
         once.fillLow && twice.fillLow, once.auxLow && twice.auxLow)
  }

  ghost function CheckExec(s: Stmt, subLow: bool, f: Flow, v: View): Option<Flow>
    requires !s.End?
    decreases s, 0
  {
    match s
    case Assign(kind, x, e, _) => CheckAssign(kind, x, e, f, v)
    case SetDot(e, _) =>
      var l := LowExpr(e, f, v);
      Some(f.(dotLow := l, auxLow := f.auxLow && f.dotLow && f.fillLow && l))
    case Data(_, e, _) => Some(f.(auxLow := f.auxLow && f.dotLow && LowExpr(e, f, v)))
    case Fill(e, _) => Some(f.(fillLow := LowExpr(e, f, v)))
    case Assert(e, _, _) => Some(f.(auxLow := f.auxLow && LowExpr(e, f, v)))
    case Input(_, _, pieces, _) =>
      if PiecesOk(pieces, subLow, f, v)
      then Some(f.(wrote := f.wrote + PieceCells(pieces), dotLow := f.dotLow && subLow))
      else None
    case OnePage(body, _) =>
      var once :- CheckWalk(body, subLow, f, v);
      if f.dotLow && once.dotLow then
        var twice :- CheckWalk(body, subLow, Moved(f, once), v);
        Some(Meet(once, twice))
      else if Silent(Written(body, v.prog), v) then
        Some(Flow(f.wrote + Written(body, v.prog), f.cur, false, false, false))
      else None
  }

  ghost function CheckWalk(s: Stmt, subLow: bool, f: Flow, v: View): Option<Flow>
    decreases s, 1
  {
    if s.End? then Some(f)
    else
      var f' :- CheckExec(s, subLow, f, v);
      CheckWalk(s.next, subLow, f', v)
  }

  lemma {:induction false} CheckExecWrites(s: Stmt, subLow: bool, f: Flow, v: View)
    requires !s.End? && CheckExec(s, subLow, f, v).Some?
    ensures CheckExec(s, subLow, f, v).value.wrote == f.wrote + WrittenBy(s, v.prog)
    ensures CheckExec(s, subLow, f, v).value.cur == f.cur
    decreases s, 0
  {
    if s.OnePage? {
      CheckWalkWrites(s.body, subLow, f, v);
    }
  }

  lemma {:induction false} CheckWalkWrites(s: Stmt, subLow: bool, f: Flow, v: View)
    requires CheckWalk(s, subLow, f, v).Some?
    ensures CheckWalk(s, subLow, f, v).value.wrote == f.wrote + Written(s, v.prog)
    ensures CheckWalk(s, subLow, f, v).value.cur == f.cur
    decreases s, 1
  {
    if !s.End? {
      CheckExecWrites(s, subLow, f, v);
      CheckWalkWrites(s.next, subLow, CheckExec(s, subLow, f, v).value, v);
    }
  }

  // ---- what a walk leaves alone

  /** A step that writes only `cells`. */
  ghost predicate Only(cells: set<Cell>, a: State, b: State) {
    && b.cur == a.cur && b.prev == a.prev
    && (forall x :: x in b.bound <==> x in a.bound || SymbolValue(x) in cells)
    && (forall c :: c !in cells ==> At(b.store, c) == At(a.store, c))
  }

  lemma {:induction false} PlacePiecesOnly(ps: seq<nat>, sub: pos, prog: Program, a: State)
    ensures Only(PieceCells(ps), a, PlacePieces(ps, sub, prog, a))
  {
    if ps != [] {
      PlacePiecesOnly(ps[1..], sub, prog, PlacePiece(ps[0], sub, prog, a));
    }
  }

  lemma {:induction false} ExecOnly(s: Stmt, sub: pos, prog: Program, a: State)
    requires !s.End? && Exec(s, sub, prog, a).Some?
    ensures Only(WrittenBy(s, prog), a, Exec(s, sub, prog, a).value)
    decreases s, 0
  {
    match s
    case Input(_, _, pieces, _) => PlacePiecesOnly(pieces, sub, prog, a);
    case OnePage(body, _) =>
      WalkOnly(body, sub, prog, a);
      var walked := Walk(body, sub, prog, a).value;
      if CrossesPage(a.dot, walked.dot) {
        WalkOnly(body, sub, prog, MoveToPage(a, walked));
      }
    case _ =>
  }

  lemma {:induction false} WalkOnly(s: Stmt, sub: pos, prog: Program, a: State)
    requires Walk(s, sub, prog, a).Some?
    ensures Only(Written(s, prog), a, Walk(s, sub, prog, a).value)
    decreases s, 1
  {
    if !s.End? {
      ExecOnly(s, sub, prog, a);
      WalkOnly(s.next, sub, prog, Exec(s, sub, prog, a).value);
    }
  }

  // ---- two runs of a checked walk

  ghost function Wrote(c: Cell, f: Flow): Flow {
    f.(wrote := f.wrote + {c})
  }

  lemma WriteAgrees(c: Cell, x: int, y: int, f: Flow, v: View, a: State, b: State)
    requires Agree(f, v, a, b) && !c.SymbolValue?
    requires v.low(c) ==> x == y
    ensures Agree(Wrote(c, f), v, Write(c, x, a), Write(c, y, b))
  {
    forall d | Shared(d, Wrote(c, f), v)
      ensures Value(d, Write(c, x, a)) == Value(d, Write(c, y, b))
    {
      assert d != c ==> Shared(d, f, v);
    }
  }

  lemma BindAgrees(x: string, i: int, j: int, f: Flow, v: View, a: State, b: State)
    requires Agree(f, v, a, b) && (v.low(SymbolValue(x)) ==> i == j)
    ensures Agree(Wrote(SymbolValue(x), f), v, Write(SymbolValue(x), i, a).(bound := a.bound + {x}),
                  Write(SymbolValue(x), j, b).(bound := b.bound + {x}))
  {
    var a', b' := Write(SymbolValue(x), i, a).(bound := a.bound + {x}), Write(SymbolValue(x), j, b).(bound := b.bound + {x});
    forall d | Shared(d, Wrote(SymbolValue(x), f), v)
      ensures Value(d, a') == Value(d, b')
    {
      if d != SymbolValue(x) {
        assert Shared(d, f, v);
        assert Value(d, a) == Value(d, b);
      }
    }
  }

  lemma AssignAgrees(kind: AssignKind, x: string, e: Expr, f: Flow, v: View, a: State, b: State)
    requires Agree(f, v, a, b) && CheckAssign(kind, x, e, f, v).Some?
    requires AssignSymbol(kind, x, e, v.prog, a).Some? && AssignSymbol(kind, x, e, v.prog, b).Some?
    ensures Agree(CheckAssign(kind, x, e, f, v).value, v,
                  AssignSymbol(kind, x, e, v.prog, a).value, AssignSymbol(kind, x, e, v.prog, b).value)
  {
    if Assigns(kind, x, v.prog) {
      if LowExpr(e, f, v) {
        EvalAgrees(e, f, v, a, b);
      }
      BindAgrees(x, Eval(e, v.prog, a).value, Eval(e, v.prog, b).value, f, v, a, b);
    } else {
      assert f.wrote + {} == f.wrote;
    }
  }

  lemma {:induction false} PlacePiecesAgree(ps: seq<nat>, subA: pos, subB: pos, subLow: bool,
                                            f: Flow, v: View, a: State, b: State)
    requires Agree(f, v, a, b) && (subLow ==> subA == subB) && PiecesOk(ps, subLow, f, v)
    ensures Agree(f.(wrote := f.wrote + PieceCells(ps), dotLow := f.dotLow && subLow), v,
                  PlacePieces(ps, subA, v.prog, a), PlacePieces(ps, subB, v.prog, b))
  {
    if ps == [] {
      assert f.wrote + {} == f.wrote;
    } else {
      var p := ps[0];
      var size := v.prog.PieceSize(p);
      WriteAgrees(PieceVma(p), a.dot, b.dot, f, v, a, b);
      var f1 := Wrote(PieceVma(p), f);
      var a1, b1 := Write(PieceVma(p), a.dot, a), Write(PieceVma(p), b.dot, b);
      WriteAgrees(PiecePad(p), PadFor(size, subA), PadFor(size, subB), f1, v, a1, b1);
      var f2 := Wrote(PiecePad(p), f1);
      var a2, b2 := Write(PiecePad(p), PadFor(size, subA), a1), Write(PiecePad(p), PadFor(size, subB), b1);
      WriteAgrees(PieceFill(p), a.fill, b.fill, f2, v, a2, b2);
      var f3 := Wrote(PieceFill(p), f2);
      var a3, b3 := PlacePiece(p, subA, v.prog, a), PlacePiece(p, subB, v.prog, b);
      var f4 := f3.(dotLow := f.dotLow && subLow);
      MoveDotAgrees(f3, f4, v, Write(PieceFill(p), a.fill, a2), Write(PieceFill(p), b.fill, b2), a3, b3);
      PlacePiecesAgree(ps[1..], subA, subB, subLow, f4, v, a3, b3);
      assert f4.wrote + PieceCells(ps[1..]) == f.wrote + PieceCells(ps);
    }
  }

  /** Only `dot` changes. */
  lemma MoveDotAgrees(f: Flow, f': Flow, v: View, a: State, b: State, a': State, b': State)
    requires Agree(f, v, a, b)
    requires a' == a.(dot := a'.dot) && b' == b.(dot := b'.dot)
    requires f' == f.(dotLow := f'.dotLow) && (f'.dotLow ==> a'.dot == b'.dot)
    ensures Agree(f', v, a', b')
  {
    ScalarsAgree(f, f', v, a, b, a', b');
  }

  /** Only scalar variables change. */
  lemma ScalarsAgree(f: Flow, f': Flow, v: View, a: State, b: State, a': State, b': State)
    requires Agree(f, v, a, b)
    requires a'.store == a.store && a'.prev == a.prev && a'.bound == a.bound
    requires b'.store == b.store && b'.prev == b.prev && b'.bound == b.bound
    requires f'.wrote == f.wrote && a'.cur == f'.cur && b'.cur == f'.cur
    requires f'.dotLow ==> a'.dot == b'.dot
    requires f'.fillLow ==> a'.fill == b'.fill
    requires f'.auxLow ==> a'.extras == b'.extras && a'.failed == b'.failed
    ensures Agree(f', v, a', b')
  {
    forall d | Shared(d, f', v)
      ensures Value(d, a') == Value(d, b')
    {
      assert Shared(d, f, v);
      assert Value(d, a) == Value(d, b);
    }
  }

  /** Two runs that write different things, but only to cells that need not agree. */
  lemma SilentAgrees(cells: set<Cell>, f: Flow, v: View, a: State, b: State, a': State, b': State)
    requires Agree(f, v, a, b) && Silent(cells, v)
    requires Only(cells, a, a') && Only(cells, b, b')
    ensures Agree(Flow(f.wrote + cells, f.cur, false, false, false), v, a', b')
  {
    var f' := Flow(f.wrote + cells, f.cur, false, false, false);
    forall d | Shared(d, f', v)
      ensures Value(d, a') == Value(d, b')
    {
      assert d !in cells;
      assert Shared(d, f, v);
      assert Value(d, a) == Value(d, b);
    }
    assert a'.bound == b'.bound;
  }

  lemma {:induction false} ExecAgrees(s: Stmt, subA: pos, subB: pos, subLow: bool, f: Flow, v: View, a: State, b: State)
    requires !s.End? && Agree(f, v, a, b) && (subLow ==> subA == subB)
    requires CheckExec(s, subLow, f, v).Some?
    requires Exec(s, subA, v.prog, a).Some? && Exec(s, subB, v.prog, b).Some?
    ensures Agree(CheckExec(s, subLow, f, v).value, v,
                  Exec(s, subA, v.prog, a).value, Exec(s, subB, v.prog, b).value)
    decreases s, 0
  {
    if s.Assign? {
      AssignAgrees(s.kind, s.sym, s.e, f, v, a, b);
    } else if s.Input? {
      PlacePiecesAgree(s.pieces, subA, subB, subLow, f, v, a, b);
    } else if s.OnePage? {
      OnePageAgrees(s, subA, subB, subLow, f, v, a, b);
    } else {
      if LowExpr(s.e, f, v) {
        EvalAgrees(s.e, f, v, a, b);
      }
      match s
      case SetDot(e, _) => MoveDotStmtAgrees(e, f, v, a, b);
      case Data(width, e, _) => PutDataAgrees(width, e, f, v, a, b);
      case Fill(e, _) => SetFillAgrees(e, f, v, a, b);
      case Assert(e, message, _) => AssertAgrees(e, message, f, v, a, b);
    }
  }

  ghost predicate EvalShared(e: Expr, f: Flow, v: View, a: State, b: State) {
    LowExpr(e, f, v) ==> Eval(e, v.prog, a) == Eval(e, v.prog, b)
  }

  lemma MoveDotStmtAgrees(e: Expr, f: Flow, v: View, a: State, b: State)
    requires Agree(f, v, a, b) && EvalShared(e, f, v, a, b)
    requires MoveDot(e, v.prog, a).Some? && MoveDot(e, v.prog, b).Some?
    ensures Agree(f.(dotLow := LowExpr(e, f, v), auxLow := f.auxLow && f.dotLow && f.fillLow && LowExpr(e, f, v)), v,
                  MoveDot(e, v.prog, a).value, MoveDot(e, v.prog, b).value)
  {
    ScalarsAgree(f, f.(dotLow := LowExpr(e, f, v), auxLow := f.auxLow && f.dotLow && f.fillLow && LowExpr(e, f, v)),
                 v, a, b, MoveDot(e, v.prog, a).value, MoveDot(e, v.prog, b).value);
  }

  lemma PutDataAgrees(width: nat, e: Expr, f: Flow, v: View, a: State, b: State)
    requires Agree(f, v, a, b) && EvalShared(e, f, v, a, b)
    requires PutData(width, e, v.prog, a).Some? && PutData(width, e, v.prog, b).Some?
    ensures Agree(f.(auxLow := f.auxLow && f.dotLow && LowExpr(e, f, v)), v,
                  PutData(width, e, v.prog, a).value, PutData(width, e, v.prog, b).value)
  {
    ScalarsAgree(f, f.(auxLow := f.auxLow && f.dotLow && LowExpr(e, f, v)), v, a, b,
                 PutData(width, e, v.prog, a).value, PutData(width, e, v.prog, b).value);
  }

  lemma SetFillAgrees(e: Expr, f: Flow, v: View, a: State, b: State)
    requires Agree(f, v, a, b) && EvalShared(e, f, v, a, b)
    requires SetFill(e, v.prog, a).Some? && SetFill(e, v.prog, b).Some?
    ensures Agree(f.(fillLow := LowExpr(e, f, v)), v, SetFill(e, v.prog, a).value, SetFill(e, v.prog, b).value)
  {
    ScalarsAgree(f, f.(fillLow := LowExpr(e, f, v)), v, a, b, SetFill(e, v.prog, a).value, SetFill(e, v.prog, b).value);
  }

  lemma AssertAgrees(e: Expr, message: string, f: Flow, v: View, a: State, b: State)
    requires Agree(f, v, a, b) && EvalShared(e, f, v, a, b)
    requires CheckAssert(e, message, v.prog, a).Some? && CheckAssert(e, message, v.prog, b).Some?
    ensures Agree(f.(auxLow := f.auxLow && LowExpr(e, f, v)), v,
                  CheckAssert(e, message, v.prog, a).value, CheckAssert(e, message, v.prog, b).value)
  {
    ScalarsAgree(f, f.(auxLow := f.auxLow && LowExpr(e, f, v)), v, a, b,
                 CheckAssert(e, message, v.prog, a).value, CheckAssert(e, message, v.prog, b).value);
  }

  lemma {:induction false} OnePageAgrees(s: Stmt, subA: pos, subB: pos, subLow: bool, f: Flow, v: View, a: State, b: State)
    requires s.OnePage? && Agree(f, v, a, b) && (subLow ==> subA == subB)
    requires CheckExec(s, subLow, f, v).Some?
    requires Exec(s, subA, v.prog, a).Some? && Exec(s, subB, v.prog, b).Some?
    ensures Agree(CheckExec(s, subLow, f, v).value, v,
                  Exec(s, subA, v.prog, a).value, Exec(s, subB, v.prog, b).value)
    decreases s.body, 2
  {
    var body := s.body;
    var once := CheckWalk(body, subLow, f, v).value;
    if f.dotLow && once.dotLow {
      WalkAgrees(body, subA, subB, subLow, f, v, a, b);
      var a1, b1 := Walk(body, subA, v.prog, a).value, Walk(body, subB, v.prog, b).value;
      var twice := CheckWalk(body, subLow, Moved(f, once), v).value;
      CheckWalkWrites(body, subLow, f, v);
      CheckWalkWrites(body, subLow, Moved(f, once), v);
      assert twice.wrote == once.wrote;
      if CrossesPage(a.dot, a1.dot) {
        var a2, b2 := MoveToPage(a, a1), MoveToPage(b, b1);
        ScalarsAgree(once, Moved(f, once), v, a1, b1, a2, b2);
        WalkAgrees(body, subA, subB, subLow, Moved(f, once), v, a2, b2);
        WeakerAgrees(twice, Meet(once, twice), v,
                     Walk(body, subA, v.prog, a2).value, Walk(body, subB, v.prog, b2).value);
      } else {
        WeakerAgrees(once, Meet(once, twice), v, a1, b1);
      }
    } else {
      ExecOnly(s, subA, v.prog, a);
      ExecOnly(s, subB, v.prog, b);
      SilentAgrees(Written(body, v.prog), f, v, a, b,
                   Exec(s, subA, v.prog, a).value, Exec(s, subB, v.prog, b).value);
    }
  }

  lemma WeakerAgrees(f: Flow, f': Flow, v: View, a: State, b: State)
    requires Agree(f, v, a, b)
    requires f'.wrote == f.wrote && f'.cur == f.cur
    requires (f'.dotLow ==> f.dotLow) && (f'.fillLow ==> f.fillLow) && (f'.auxLow ==> f.auxLow)
    ensures Agree(f', v, a, b)
  {
    ScalarsAgree(f, f', v, a, b, a, b);
  }

  lemma {:induction false} WalkAgrees(s: Stmt, subA: pos, subB: pos, subLow: bool, f: Flow, v: View, a: State, b: State)
    requires Agree(f, v, a, b) && (subLow ==> subA == subB)
    requires CheckWalk(s, subLow, f, v).Some?
    requires Walk(s, subA, v.prog, a).Some? && Walk(s, subB, v.prog, b).Some?
    ensures Agree(CheckWalk(s, subLow, f, v).value, v,
                  Walk(s, subA, v.prog, a).value, Walk(s, subB, v.prog, b).value)
    decreases s, 1
  {
    if !s.End? {
      ExecAgrees(s, subA, subB, subLow, f, v, a, b);
      WalkAgrees(s.next, subA, subB, subLow, CheckExec(s, subLow, f, v).value, v,
                 Exec(s, subA, v.prog, a).value, Exec(s, subB, v.prog, b).value);
    }
  }

  // ---- sections, regions and the pass

  ghost predicate LowStart(sect: Section, f: Flow, v: View) {
    && (sect.name in v.prog.base
        || (if sect.addr.Some? then LowExpr(sect.addr.value, f, v)
            else if sect.region.Some? then Shared(Cursor(sect.region.value), f, v)
            else f.dotLow))
    && (sect.align.Some? ==> LowExpr(sect.align.value, f, v))
  }

  ghost predicate LowSub(sect: Section, f: Flow, v: View) {
    sect.subalign.Some? ==> LowExpr(sect.subalign.value, f, v)
  }

  ghost predicate LowLoad(sect: Section, startLow: bool, f: Flow, v: View) {
    if sect.at.Some? then LowExpr(sect.at.value, f, v)
    else if sect.lmaRegion.Some? then Shared(Cursor(sect.lmaRegion.value), f, v)
    else startLow
  }

  ghost predicate LowFill(sect: Section, f: Flow, v: View) {
    if sect.fill.Some? then LowExpr(sect.fill.value, f, v)
    else v.prog.globalFill.Some? ==> LowExpr(v.prog.globalFill.value, f, v)
  }

  /** The flow after OpenSection; the section's address must be known to be low
      if its cell is. */
  ghost function CheckOpen(sect: Section, f: Flow, v: View): Option<Flow> {
    var here := f.(cur := Some(sect.name));
    var startLow := LowStart(sect, here, v);
    var placed := Wrote(Vma(sect.name), here);
    var lmaLow := LowLoad(sect, startLow, placed, v);
    var loaded := Wrote(Lma(sect.name), placed);
    if (v.low(Vma(sect.name)) && !startLow) || (v.low(Lma(sect.name)) && !lmaLow) then None
    else Some(loaded.(dotLow := startLow, fillLow := LowFill(sect, loaded, v)))
  }

  /** A region's cursor may move only with what the section's end depends on. */
  ghost function CheckAdvance(region: Option<string>, endLow: bool, f: Flow, v: View): Option<Flow> {
    if region.None? then Some(f)
    else
      var c := Cursor(region.value);
      if v.low(c) && !(endLow && Shared(c, f, v)) then None else Some(Wrote(c, f))
  }

  ghost function CheckClose(sect: Section, f: Flow, v: View): Option<Flow> {
    var sizeLow := f.dotLow && Shared(Vma(sect.name), f, v);
    var sized := Wrote(Size(sect.name), f);
    if v.low(Size(sect.name)) && !sizeLow then None
    else
      var placed :- CheckAdvance(sect.region, f.dotLow, sized, v);
      var loaded :- CheckAdvance(sect.lmaRegion, sizeLow && Shared(Lma(sect.name), f, v), placed, v);
      Some(loaded.(cur := None))
  }

  ghost function CheckSection(sect: Section, f: Flow, v: View): Option<Flow> {
    var begun :- CheckOpen(sect, f, v);
    var walked :- CheckWalk(sect.body, LowSub(sect, f.(cur := Some(sect.name)), v), begun, v);
    CheckClose(sect, walked, v)
  }

  ghost function CheckExecTop(t: Top, f: Flow, v: View): Option<Flow> {
    match t
    case TopSection(sect) => CheckSection(sect, f, v)
    case TopAssign(kind, x, e) => CheckAssign(kind, x, e, f, v)
    case TopDot(e) => Some(f.(dotLow := LowExpr(e, f, v)))
    case TopAssert(e, _) => Some(f.(auxLow := f.auxLow && LowExpr(e, f, v)))
  }

  ghost function CheckTop(top: seq<Top>, f: Flow, v: View): Option<Flow> {
    if top == [] then Some(f)
    else
      var f' :- CheckExecTop(top[0], f, v);
      CheckTop(top[1..], f', v)
  }

  ghost function CheckRegion(r: Region, f: Flow, v: View): Option<Flow> {
    var orgLow := LowExpr(r.origin, f, v);
    var withOrg := Wrote(Org(r.name), f);
    var lenLow := LowExpr(r.length, withOrg, v);
    if (v.low(Org(r.name)) && !orgLow) || (v.low(Len(r.name)) && !lenLow)
       || (v.low(Cursor(r.name)) && !orgLow) then None
    else Some(Wrote(Cursor(r.name), Wrote(Len(r.name), withOrg)))
  }

  ghost function CheckRegions(rs: seq<Region>, f: Flow, v: View): Option<Flow> {
    if rs == [] then Some(f)
    else
      var f' :- CheckRegion(rs[0], f, v);
      CheckRegions(rs[1..], f', v)
  }

  ghost const AT_RESET := Flow({}, None, true, false, true)

  /** The static check of a whole pass. */
  ghost function CheckPass(v: View): Option<Flow> {
    var ready :- CheckRegions(v.prog.regions, AT_RESET, v);
    CheckTop(v.prog.top, ready, v)
  }

  lemma OpenAgrees(sect: Section, f: Flow, v: View, a: State, b: State)
    requires Agree(f, v, a, b) && CheckOpen(sect, f, v).Some?
    requires OpenSection(sect, v.prog, a).Some? && OpenSection(sect, v.prog, b).Some?
    ensures Agree(CheckOpen(sect, f, v).value, v,
                  OpenSection(sect, v.prog, a).value.0, OpenSection(sect, v.prog, b).value.0)
    ensures LowSub(sect, f.(cur := Some(sect.name)), v) ==>
              OpenSection(sect, v.prog, a).value.1 == OpenSection(sect, v.prog, b).value.1
  {
    var n := sect.name;
    var f0 := f.(cur := Some(n));
    var a0, b0 := a.(cur := Some(n)), b.(cur := Some(n));
    ScalarsAgree(f, f0, v, a, b, a0, b0);
    StartAgrees(sect, f0, v, a0, b0);
    var startA, startB := Start(sect, v.prog, a0).value, Start(sect, v.prog, b0).value;
    WriteAgrees(Vma(n), startA, startB, f0, v, a0, b0);
    var f1 := Wrote(Vma(n), f0);
    var a1, b1 := Write(Vma(n), startA, a0), Write(Vma(n), startB, b0);
    LoadAgrees(sect, startA, startB, LowStart(sect, f0, v), f1, v, a1, b1);
    var lmaA, lmaB := LoadAddress(sect, startA, v.prog, a1).value, LoadAddress(sect, startB, v.prog, b1).value;
    WriteAgrees(Lma(n), lmaA, lmaB, f1, v, a1, b1);
    var f2 := Wrote(Lma(n), f1);
    var a2, b2 := Write(Lma(n), lmaA, a1), Write(Lma(n), lmaB, b1);
    FillAgrees(sect, f2, v, a2, b2);
    ScalarsAgree(f2, CheckOpen(sect, f, v).value, v, a2, b2,
                 OpenSection(sect, v.prog, a).value.0, OpenSection(sect, v.prog, b).value.0);
  }

  lemma StartAgrees(sect: Section, f: Flow, v: View, a: State, b: State)
    requires Agree(f, v, a, b)
    ensures LowStart(sect, f, v) && Start(sect, v.prog, a).Some? && Start(sect, v.prog, b).Some? ==>
              Start(sect, v.prog, a) == Start(sect, v.prog, b)
    ensures LowSub(sect, f, v) ==> SubAlign(sect, v.prog, a) == SubAlign(sect, v.prog, b)
  {
    if sect.addr.Some? && LowExpr(sect.addr.value, f, v) {
      EvalAgrees(sect.addr.value, f, v, a, b);
    }
    if sect.align.Some? && LowExpr(sect.align.value, f, v) {
      EvalAgrees(sect.align.value, f, v, a, b);
    }
    if sect.subalign.Some? && LowExpr(sect.subalign.value, f, v) {
      EvalAgrees(sect.subalign.value, f, v, a, b);
    }
  }

  lemma LoadAgrees(sect: Section, startA: int, startB: int, startLow: bool, f: Flow, v: View, a: State, b: State)
    requires Agree(f, v, a, b) && (startLow ==> startA == startB)
    ensures LowLoad(sect, startLow, f, v) ==>
              LoadAddress(sect, startA, v.prog, a) == LoadAddress(sect, startB, v.prog, b)
  {
    if sect.at.Some? && LowExpr(sect.at.value, f, v) {
      EvalAgrees(sect.at.value, f, v, a, b);
    }
  }

  lemma FillAgrees(sect: Section, f: Flow, v: View, a: State, b: State)
    requires Agree(f, v, a, b)
    ensures LowFill(sect, f, v) ==> SectionFill(sect, v.prog, a) == SectionFill(sect, v.prog, b)
  {
    if LowFill(sect, f, v) {
      if sect.fill.Some? {
        EvalAgrees(sect.fill.value, f, v, a, b);
      } else if v.prog.globalFill.Some? {
        EvalAgrees(v.prog.globalFill.value, f, v, a, b);
      }
    }
  }

  lemma AdvanceAgrees(region: Option<string>, endA: int, endB: int, endLow: bool,
                      f: Flow, v: View, a: State, b: State)
    requires Agree(f, v, a, b) && (endLow ==> endA == endB)
    requires CheckAdvance(region, endLow, f, v).Some?
    ensures Agree(CheckAdvance(region, endLow, f, v).value, v, Advance(region, endA, a), Advance(region, endB, b))
  {
    if region.Some? {
      var c := Cursor(region.value);
      var x := if endA > Value(c, a) then endA else Value(c, a);
      var y := if endB > Value(c, b) then endB else Value(c, b);
      WriteAgrees(c, x, y, f, v, a, b);
      SameValuesAgree(Wrote(c, f), v, Write(c, x, a), Write(c, y, b),
                      Advance(region, endA, a), Advance(region, endB, b));
    }
  }

  /** Agreement depends on the values of the cells, not on how they are stored. */
  lemma SameValuesAgree(f: Flow, v: View, a: State, b: State, a': State, b': State)
    requires Agree(f, v, a, b)
    requires a' == a.(store := a'.store) && b' == b.(store := b'.store)
    requires forall c :: At(a'.store, c) == At(a.store, c)
    requires forall c :: At(b'.store, c) == At(b.store, c)
    ensures Agree(f, v, a', b')
  {
    forall d | Shared(d, f, v)
      ensures Value(d, a') == Value(d, b')
    {
      assert Value(d, a) == Value(d, b);
    }
  }

  /** The end of a section, seen from the state with its size written. */
  ghost predicate ClosesTo(sect: Section, lmaEnd: int, sized: State, closed: State) {
    closed == Advance(sect.lmaRegion, lmaEnd, Advance(sect.region, sized.dot, sized)).(cur := None)
  }

  ghost predicate ChecksTo(sect: Section, lmaLow: bool, f: Flow, v: View, closed: Flow) {
    && CheckAdvance(sect.region, f.dotLow, f, v).Some?
    && var placed := CheckAdvance(sect.region, f.dotLow, f, v).value;
    && CheckAdvance(sect.lmaRegion, lmaLow, placed, v).Some?
    && closed == CheckAdvance(sect.lmaRegion, lmaLow, placed, v).value.(cur := None)
  }

  lemma CursorsAgree(sect: Section, endA: int, endB: int, lmaLow: bool, f: Flow, v: View, a: State, b: State,
                     f': Flow, a': State, b': State)
    requires Agree(f, v, a, b) && (lmaLow ==> endA == endB)
    requires ChecksTo(sect, lmaLow, f, v, f') && ClosesTo(sect, endA, a, a') && ClosesTo(sect, endB, b, b')
    ensures Agree(f', v, a', b')
  {
    AdvanceAgrees(sect.region, a.dot, b.dot, f.dotLow, f, v, a, b);
    var f2 := CheckAdvance(sect.region, f.dotLow, f, v).value;
    var a2, b2 := Advance(sect.region, a.dot, a), Advance(sect.region, b.dot, b);
    AdvanceAgrees(sect.lmaRegion, endA, endB, lmaLow, f2, v, a2, b2);
    var f3 := CheckAdvance(sect.lmaRegion, lmaLow, f2, v).value;
    ScalarsAgree(f3, f', v, Advance(sect.lmaRegion, endA, a2), Advance(sect.lmaRegion, endB, b2), a', b');
  }

  lemma CloseUnfolds(sect: Section, size: int, end: int, a: State)
    requires size == a.dot - Value(Vma(sect.name), a) && end == Value(Lma(sect.name), a) + size
    ensures ClosesTo(sect, end, Write(Size(sect.name), size, a), CloseSection(sect, a))
  {
  }

  lemma CheckCloseUnfolds(sect: Section, lmaLow: bool, f: Flow, v: View)
    requires CheckClose(sect, f, v).Some?
    requires lmaLow == (f.dotLow && Shared(Vma(sect.name), f, v) && Shared(Lma(sect.name), f, v))
    ensures ChecksTo(sect, lmaLow, Wrote(Size(sect.name), f), v, CheckClose(sect, f, v).value)
  {
  }

  lemma CloseAgrees(sect: Section, f: Flow, v: View, a: State, b: State)
    requires Agree(f, v, a, b) && CheckClose(sect, f, v).Some?
    ensures Agree(CheckClose(sect, f, v).value, v, CloseSection(sect, a), CloseSection(sect, b))
  {
    var n := sect.name;
    var sizeA, sizeB := a.dot - Value(Vma(n), a), b.dot - Value(Vma(n), b);
    var endA, endB := Value(Lma(n), a) + sizeA, Value(Lma(n), b) + sizeB;
    var lmaLow := f.dotLow && Shared(Vma(n), f, v) && Shared(Lma(n), f, v);
    assert lmaLow ==> endA == endB;
    WriteAgrees(Size(n), sizeA, sizeB, f, v, a, b);
    CloseUnfolds(sect, sizeA, endA, a);
    CloseUnfolds(sect, sizeB, endB, b);
    CheckCloseUnfolds(sect, lmaLow, f, v);
    CursorsAgree(sect, endA, endB, lmaLow, Wrote(Size(n), f), v, Write(Size(n), sizeA, a), Write(Size(n), sizeB, b),
                 CheckClose(sect, f, v).value, CloseSection(sect, a), CloseSection(sect, b));
  }

  lemma SectionAgrees(sect: Section, f: Flow, v: View, a: State, b: State)
    requires Agree(f, v, a, b) && CheckSection(sect, f, v).Some?
    requires LayoutSection(sect, v.prog, a).Some? && LayoutSection(sect, v.prog, b).Some?
    ensures Agree(CheckSection(sect, f, v).value, v,
                  LayoutSection(sect, v.prog, a).value, LayoutSection(sect, v.prog, b).value)
  {
    OpenAgrees(sect, f, v, a, b);
    var subLow := LowSub(sect, f.(cur := Some(sect.name)), v);
    var begun := CheckOpen(sect, f, v).value;
    var (a1, subA) := OpenSection(sect, v.prog, a).value;
    var (b1, subB) := OpenSection(sect, v.prog, b).value;
    WalkAgrees(sect.body, subA, subB, subLow, begun, v, a1, b1);
    CloseAgrees(sect, CheckWalk(sect.body, subLow, begun, v).value, v,
                Walk(sect.body, subA, v.prog, a1).value, Walk(sect.body, subB, v.prog, b1).value);
  }

  lemma ExecTopAgrees(t: Top, f: Flow, v: View, a: State, b: State)
    requires Agree(f, v, a, b) && CheckExecTop(t, f, v).Some?
    requires ExecTop(t, v.prog, a).Some? && ExecTop(t, v.prog, b).Some?
    ensures Agree(CheckExecTop(t, f, v).value, v, ExecTop(t, v.prog, a).value, ExecTop(t, v.prog, b).value)
  {
    if t.TopSection? {
      SectionAgrees(t.sect, f, v, a, b);
    } else if t.TopAssign? {
      AssignAgrees(t.kind, t.sym, t.e, f, v, a, b);
    } else {
      if LowExpr(t.e, f, v) {
        EvalAgrees(t.e, f, v, a, b);
      }
      ScalarsAgree(f, CheckExecTop(t, f, v).value, v, a, b,
                   ExecTop(t, v.prog, a).value, ExecTop(t, v.prog, b).value);
    }
  }

  lemma {:induction false} TopAgrees(top: seq<Top>, f: Flow, v: View, a: State, b: State)
    requires Agree(f, v, a, b) && CheckTop(top, f, v).Some?
    requires RunTop(top, v.prog, a).Some? && RunTop(top, v.prog, b).Some?
    ensures Agree(CheckTop(top, f, v).value, v, RunTop(top, v.prog, a).value, RunTop(top, v.prog, b).value)
  {
    if top != [] {
      ExecTopAgrees(top[0], f, v, a, b);
      TopAgrees(top[1..], CheckExecTop(top[0], f, v).value, v,
                ExecTop(top[0], v.prog, a).value, ExecTop(top[0], v.prog, b).value);
    }
  }

  lemma RegionAgrees(r: Region, f: Flow, v: View, a: State, b: State)
    requires Agree(f, v, a, b) && CheckRegion(r, f, v).Some?
    requires SetRegion(r, v.prog, a).Some? && SetRegion(r, v.prog, b).Some?
    ensures Agree(CheckRegion(r, f, v).value, v, SetRegion(r, v.prog, a).value, SetRegion(r, v.prog, b).value)
  {
    var n := r.name;
    if LowExpr(r.origin, f, v) {
      EvalAgrees(r.origin, f, v, a, b);
    }
    var orgA, orgB := Eval(r.origin, v.prog, a).value, Eval(r.origin, v.prog, b).value;
    WriteAgrees(Org(n), orgA, orgB, f, v, a, b);
    var f1 := Wrote(Org(n), f);
    var a1, b1 := Write(Org(n), orgA, a), Write(Org(n), orgB, b);
    if LowExpr(r.length, f1, v) {
      EvalAgrees(r.length, f1, v, a1, b1);
    }
    var lenA, lenB := Eval(r.length, v.prog, a1).value, Eval(r.length, v.prog, b1).value;
    WriteAgrees(Len(n), lenA, lenB, f1, v, a1, b1);
    WriteAgrees(Cursor(n), orgA, orgB, Wrote(Len(n), f1), v, Write(Len(n), lenA, a1), Write(Len(n), lenB, b1));
  }

  lemma {:induction false} RegionsAgree(rs: seq<Region>, f: Flow, v: View, a: State, b: State)
    requires Agree(f, v, a, b) && CheckRegions(rs, f, v).Some?
    requires SetRegions(rs, v.prog, a).Some? && SetRegions(rs, v.prog, b).Some?
    ensures Agree(CheckRegions(rs, f, v).value, v, SetRegions(rs, v.prog, a).value, SetRegions(rs, v.prog, b).value)
  {
    if rs != [] {
      RegionAgrees(rs[0], f, v, a, b);
      RegionsAgree(rs[1..], CheckRegion(rs[0], f, v).value, v,
                   SetRegion(rs[0], v.prog, a).value, SetRegion(rs[0], v.prog, b).value);
    }
  }

  /** The cells that two states share at the start of a pass. */
  ghost predicate SameBefore(v: View, a: State, b: State) {
    forall c | v.was(c) :: Value(c, Reset(a)) == Value(c, Reset(b))
  }

  /** Noninterference of a pass: the `low` cells of its result depend on nothing
      but the `was` cells of the state it starts from. */
  lemma PassAgrees(v: View, a: State, b: State)
    requires CheckPass(v).Some? && SameBefore(v, a, b)
    requires Pass(v.prog, a).Some? && Pass(v.prog, b).Some?
    ensures Agree(CheckPass(v).value, v, Pass(v.prog, a).value, Pass(v.prog, b).value)
  {
    var a0, b0 := Reset(a), Reset(b);
    assert Agree(AT_RESET, v, a0, b0);
    RegionsAgree(v.prog.regions, AT_RESET, v, a0, b0);
    TopAgrees(v.prog.top, CheckRegions(v.prog.regions, AT_RESET, v).value, v,
              SetRegions(v.prog.regions, v.prog, a0).value, SetRegions(v.prog.regions, v.prog, b0).value);
  }
}
