/** Linker scripts as the parser of ld/script.c leaves them: expression trees,
    the linked statement lists of the output sections, and the top level. */
module ScriptSyntax {
  import opened Prelude

  datatype UnaryOp = Neg | Compl | Not

  datatype BinaryOp =
    | LOr | LAnd | BitOr | BitXor | BitAnd | Eq | Ne | Lt | Le | Gt | Ge
    | Shl | Shr | Add | Sub | Mul | Div | Mod

  datatype NameFn = ADDR | LOADADDR | SIZEOF | DEFINED | ORIGIN | LENGTH

  datatype PairFn = ALIGN | MAX | MIN

  datatype Expr =
    | Num(n: nat)
    | Dot
    | Sym(name: string)
    | OfName(nf: NameFn, arg: string)
    | AlignDot(a: Expr)
    | OfPair(pf: PairFn, a: Expr, b: Expr)
    | Cond(a: Expr, b: Expr, c: Expr)
    | Unary(uop: UnaryOp, a: Expr)
    | Binary(bop: BinaryOp, a: Expr, b: Expr)

  datatype AssignKind = Plain | Provide | Hidden

  /** A statement list; `next` is the C list's link.  An Input statement carries
      the patterns it was written with and the input sections given to it. */
  datatype Stmt =
    | End
    | Assign(kind: AssignKind, sym: string, e: Expr, next: Stmt)
    | SetDot(e: Expr, next: Stmt)
    | Data(width: nat, e: Expr, next: Stmt)
    | Fill(e: Expr, next: Stmt)
    | Assert(e: Expr, message: string, next: Stmt)
    | Input(filepat: Option<string>, secpats: seq<string>, pieces: seq<nat>, next: Stmt)
    | OnePage(body: Stmt, next: Stmt)

  datatype Section = Section(
    name: string,
    addr: Option<Expr>, at: Option<Expr>, align: Option<Expr>, subalign: Option<Expr>,
    fill: Option<Expr>, region: Option<string>, lmaRegion: Option<string>,
    noload: bool, datapart: bool, body: Stmt)

  datatype Region = Region(name: string, origin: Expr, length: Expr)

  datatype Top =
    | TopSection(sect: Section)
    | TopAssign(kind: AssignKind, sym: string, e: Expr)
    | TopDot(e: Expr)
    | TopAssert(e: Expr, message: string)

  /** The input sections of one statement, and of a statement list, in script
      order. */
  function PiecesBy(s: Stmt): (ps: seq<nat>)
    requires !s.End?
    decreases s, 0
  {
    match s
    case Input(_, _, pieces, _) => pieces
    case OnePage(body, _) => PiecesOf(body)
    case _ => []
  }

  function PiecesOf(s: Stmt): (ps: seq<nat>)
    decreases s, 1
  {
    if s.End? then [] else PiecesBy(s) + PiecesOf(s.next)
  }

  /** The output sections of a script, in order. */
  function SectionsOf(top: seq<Top>): (ss: seq<Section>) {
    if top == [] then []
    else (if top[0].TopSection? then [top[0].sect] else []) + SectionsOf(top[1..])
  }

  function AllPieces(ss: seq<Section>): (ps: seq<nat>) {
    if ss == [] then [] else PiecesOf(ss[0].body) + AllPieces(ss[1..])
  }
}
