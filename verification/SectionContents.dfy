/** What an accepted layout puts at the addresses of a section: nothing is skipped, and padding,
    `.` and load addresses are what the script asks for. */
module SectionContents {
  import opened Prelude
  import opened ScriptSyntax
  import opened Layout
  import opened InformationFlow
  import opened Settling
  import opened Fixpoint
  import opened Occupancy
  import opened Disjointness
  import opened ScriptMeaning
  import opened SectionMeaning

  // ---- single statements

  /** `. = e` is accepted exactly when it does not move back, and goes to the value of e. */
  lemma DotMoves(e: Expr, next: Stmt, sub: pos, prog: Program, a: State, v: int)
    ensures Exec(SetDot(e, next), sub, prog, a).Some? && Exec(SetDot(e, next), sub, prog, a).value.dot == v
        <==> Evaluates(e, prog, a, v) && a.dot <= v
  {
    Valued(e, prog, a);
  }

  /** `. = ALIGN(n)` goes to the next multiple of the power of two n, and is refused for no other n. */
  lemma AlignMoves(n: Expr, next: Stmt, sub: pos, prog: Program, a: State, v: int)
    ensures Exec(SetDot(AlignDot(n), next), sub, prog, a).Some? && Exec(SetDot(AlignDot(n), next), sub, prog, a).value.dot == v
        <==> exists m :: Evaluates(n, prog, a, m) && Aligns(a.dot, m, v)
  {
    DotMoves(AlignDot(n), next, sub, prog, a, v);
  }

  /** BYTE and WORD: the datum is at `.`, and its bytes can hold it. */
  lemma DataIsPut(width: nat, e: Expr, next: Stmt, sub: pos, prog: Program, a: State, b: State)
    requires width == 1 || width == 2
    requires Exec(Data(width, e, next), sub, prog, a) == Some(b)
    ensures b.dot == a.dot + width && |b.extras| == |a.extras| + 1 && a.extras <= b.extras
    ensures b.extras[|a.extras|].vma == a.dot && ExtraEnd(b.extras[|a.extras|]) == b.dot
    ensures Evaluates(e, prog, a, b.extras[|a.extras|].value)
    ensures exists u :: StandsFor(u, b.extras[|a.extras|].value, Codes(width))
  {
    Valued(e, prog, a);
    WidthFits(Eval(e, prog, a).value, width);
  }

  /** A script's assignment gives its symbol the value of the expression, and nothing else a new
      value; PROVIDE only if nobody else defines the symbol. */
  lemma AssignmentDefines(kind: AssignKind, x: string, e: Expr, prog: Program, a: State, b: State)
    requires AssignSymbol(kind, x, e, prog, a) == Some(b)
    ensures kind == Provide && x in prog.symbols && (prog.symbols[x].plain || prog.symbols[x].moddef) ==> b == a
    ensures kind != Provide || x !in prog.symbols || !(prog.symbols[x].plain || prog.symbols[x].moddef) ==>
              exists v :: Evaluates(e, prog, a, v) && Value(SymbolValue(x), b) == v
    ensures prog.ScriptOwns(x) && kind != Provide ==> exists v :: Evaluates(e, prog, a, v) && Evaluates(Sym(x), prog, b, v)
    ensures forall c: Cell | c != SymbolValue(x) :: Value(c, b) == Value(c, a)
  {
    Valued(e, prog, a);
  }

  // ---- padding

  /** The padding of a piece is the least that makes its size a multiple of SUBALIGN. */
  predicate Pads(size: nat, sub: pos, pad: int) {
    0 <= pad < sub && (size + pad) % sub == 0
  }

  lemma PadForPads(size: nat, sub: pos, pad: int)
    ensures Pads(size, sub, pad) <==> pad == PadFor(size, sub)
  {
    var q, m := size / sub, size % sub;
    assert size == sub * q + m;
    if m == 0 {
      ModuloIs(sub, sub, 1, 0);
      ModuloIs(size + 0, sub, q, 0);
    } else {
      ModuloIs(sub - m, sub, 0, sub - m);
      assert size + (sub - m) == sub * (q + 1) + 0;
      ModuloIs(size + (sub - m), sub, q + 1, 0);
    }
    if Pads(size, sub, pad) {
      MultiplesApart(sub, size + pad, size + PadFor(size, sub), size);
    }
  }

  /** Every piece of a statement list is padded, whatever was in the cells before. */
  ghost predicate AllPadded(ps: seq<nat>, sub: pos, prog: Program, st: State) {
    forall p <- ps :: At(st.store, PiecePad(p)) == PadFor(prog.PieceSize(p), sub)
  }

  lemma {:induction false} PiecesPadded(ps: seq<nat>, sub: pos, prog: Program, a: State)
    ensures AllPadded(ps, sub, prog, PlacePieces(ps, sub, prog, a))
  {
    if ps != [] {
      var b := PlacePiece(ps[0], sub, prog, a);
      PiecesPadded(ps[1..], sub, prog, b);
      PlacePiecesOnly(ps[1..], sub, prog, b);
      PieceCellsMember(ps[1..], ps[0]);
    }
  }

  lemma {:induction false} ExecPadded(s: Stmt, sub: pos, prog: Program, a: State)
    requires !s.End? && Exec(s, sub, prog, a).Some?
    ensures AllPadded(PiecesBy(s), sub, prog, Exec(s, sub, prog, a).value)
    decreases s, 0
  {
    if s.Input? {
      PiecesPadded(s.pieces, sub, prog, a);
    } else if s.OnePage? {
      WalkPadded(s.body, sub, prog, a);
      var walked := Walk(s.body, sub, prog, a).value;
      if CrossesPage(a.dot, walked.dot) {
        WalkPadded(s.body, sub, prog, MoveToPage(a, walked));
      }
    }
  }

  lemma {:induction false} WalkPadded(s: Stmt, sub: pos, prog: Program, a: State)
    requires Walk(s, sub, prog, a).Some?
    ensures AllPadded(PiecesOf(s), sub, prog, Walk(s, sub, prog, a).value)
    decreases s, 1
  {
    if !s.End? {
      var b := Exec(s, sub, prog, a).value;
      ExecPadded(s, sub, prog, a);
      WalkPadded(s.next, sub, prog, b);
      WalkOnly(s.next, sub, prog, b);
      forall p <- PiecesBy(s)
        ensures At(Walk(s, sub, prog, a).value.store, PiecePad(p)) == PadFor(prog.PieceSize(p), sub)
      {
        if PiecePad(p) in Written(s.next, prog) {
          WrittenMember(s.next, prog, p);
        }
      }
    }
  }

  // ---- coverage

  ghost predicate InPiece(x: int, ps: seq<nat>, prog: Program, st: State) {
    exists p <- ps :: Lo(p, st) <= x < Hi(p, prog, st)
  }

  ghost predicate InExtra(x: int, from: nat, st: State) {
    exists k | from <= k < |st.extras| :: st.extras[k].sect == st.cur && st.extras[k].vma <= x < ExtraEnd(st.extras[k])
  }

  /** Every address of the range belongs to a piece, to its padding, to a datum or to a filled gap. */
  ghost predicate Covers(ps: seq<nat>, from: nat, lo: int, hi: int, prog: Program, st: State) {
    forall x | lo <= x < hi :: InPiece(x, ps, prog, st) || InExtra(x, from, st)
  }

  lemma CoversKeeps(x: int, ps: seq<nat>, from: nat, prog: Program, a: State, b: State)
    requires Keeps(ps, a, b) && (InPiece(x, ps, prog, a) || InExtra(x, from, a))
    ensures InPiece(x, ps, prog, b) || InExtra(x, from, b)
  {
    if p: nat :| p in ps && Lo(p, a) <= x < Hi(p, prog, a) {
      assert Lo(p, b) <= x < Hi(p, prog, b);
    } else {
      var k :| from <= k < |a.extras| && a.extras[k].sect == a.cur && a.extras[k].vma <= x < ExtraEnd(a.extras[k]);
      assert b.extras[k] == a.extras[k];
    }
  }

  lemma CoversMore(x: int, ps: seq<nat>, qs: seq<nat>, from: nat, later: nat, prog: Program, st: State)
    requires InPiece(x, qs, prog, st) || InExtra(x, later, st)
    requires (forall q <- qs :: q in ps) && from <= later
    ensures InPiece(x, ps, prog, st) || InExtra(x, from, st)
  {
  }

  lemma JoinCovers(ps: seq<nat>, qs: seq<nat>, from: nat, lo: int, mid: int, hi: int, prog: Program, a: State, b: State)
    requires Covers(ps, from, lo, mid, prog, a) && Covers(qs, |a.extras|, mid, hi, prog, b)
    requires Keeps(ps, a, b) && from <= |a.extras|
    ensures Covers(ps + qs, from, lo, hi, prog, b)
  {
    forall x | lo <= x < hi
      ensures InPiece(x, ps + qs, prog, b) || InExtra(x, from, b)
    {
      if x < mid {
        CoversKeeps(x, ps, from, prog, a, b);
        CoversMore(x, ps + qs, ps, from, from, prog, b);
      } else {
        CoversMore(x, ps + qs, qs, from, |a.extras|, prog, b);
      }
    }
  }

  lemma {:induction false} PiecesCover(ps: seq<nat>, sub: pos, prog: Program, a: State)
    requires Distinct(ps)
    ensures Covers(ps, |a.extras|, a.dot, PlacePieces(ps, sub, prog, a).dot, prog, PlacePieces(ps, sub, prog, a))
    ensures PlacePieces(ps, sub, prog, a).extras == a.extras && PlacePieces(ps, sub, prog, a).fill == a.fill
  {
    if ps != [] {
      var b := PlacePiece(ps[0], sub, prog, a);
      var c := PlacePieces(ps[1..], sub, prog, b);
      PiecesCover(ps[1..], sub, prog, b);
      OnePieceCovers(ps[0], sub, prog, a);
      PlacePiecesOnly(ps[1..], sub, prog, b);
      PieceCellsMember(ps[1..], ps[0]);
      assert Keeps([ps[0]], b, c);
      JoinCovers([ps[0]], ps[1..], |a.extras|, a.dot, b.dot, c.dot, prog, b, c);
      assert [ps[0]] + ps[1..] == ps;
    }
  }

  lemma OnePieceCovers(p: nat, sub: pos, prog: Program, a: State)
    ensures Covers([p], |a.extras|, a.dot, PlacePiece(p, sub, prog, a).dot, prog, PlacePiece(p, sub, prog, a))
    ensures PlacePiece(p, sub, prog, a).extras == a.extras
  {
    var b := PlacePiece(p, sub, prog, a);
    forall x | a.dot <= x < b.dot
      ensures InPiece(x, [p], prog, b)
    {
      assert p in [p] && Lo(p, b) <= x < Hi(p, prog, b);
    }
  }

  /** The list does not change the fill byte. */
  predicate NoFill(s: Stmt) {
    s.End? || (!s.Fill? && (s.OnePage? ==> NoFill(s.body)) && NoFill(s.next))
  }

  /** The padding of the pieces and the gaps since index `from` have the fill byte f. */
  ghost predicate FilledWith(ps: seq<nat>, from: nat, f: int, st: State) {
    && (forall p <- ps :: At(st.store, PieceFill(p)) == f)
    && (forall k | from <= k < |st.extras| && !st.extras[k].data :: st.extras[k].value == f)
  }

  lemma {:induction false} PiecesFilled(ps: seq<nat>, sub: pos, prog: Program, a: State)
    ensures FilledWith(ps, |a.extras|, a.fill, PlacePieces(ps, sub, prog, a))
    ensures PlacePieces(ps, sub, prog, a).extras == a.extras && PlacePieces(ps, sub, prog, a).fill == a.fill
  {
    if ps != [] {
      var b := PlacePiece(ps[0], sub, prog, a);
      PiecesFilled(ps[1..], sub, prog, b);
      PlacePiecesOnly(ps[1..], sub, prog, b);
      FillCells(ps[1..], ps[0]);
    }
  }

  lemma JoinFilled(ps: seq<nat>, s: Stmt, sub: pos, from: nat, prog: Program, b: State)
    requires Walk(s, sub, prog, b).Some? && FilledWith(ps, from, b.fill, b) && from <= |b.extras|
    requires FilledWith(PiecesOf(s), |b.extras|, b.fill, Walk(s, sub, prog, b).value)
    requires b.extras <= Walk(s, sub, prog, b).value.extras
    ensures FilledWith(ps + PiecesOf(s), from, b.fill, Walk(s, sub, prog, b).value)
  {
    var c := Walk(s, sub, prog, b).value;
    WalkOnly(s, sub, prog, b);
    forall p <- ps
      ensures At(c.store, PieceFill(p)) == b.fill
    {
      if PieceFill(p) in Written(s, prog) {
        WrittenFill(s, prog, p);
      }
    }
    assert forall k | from <= k < |b.extras| :: c.extras[k] == b.extras[k];
  }

  lemma {:induction false} ExecFilled(s: Stmt, sub: pos, prog: Program, a: State)
    requires !s.End? && Exec(s, sub, prog, a).Some? && !s.Fill? && (s.OnePage? ==> NoFill(s.body))
    ensures a.extras <= Exec(s, sub, prog, a).value.extras && Exec(s, sub, prog, a).value.fill == a.fill
    ensures FilledWith(PiecesBy(s), |a.extras|, a.fill, Exec(s, sub, prog, a).value)
    decreases s, 0
  {
    if s.Input? {
      PiecesFilled(s.pieces, sub, prog, a);
    } else if s.OnePage? {
      WalkFilled(s.body, sub, prog, a);
      var walked := Walk(s.body, sub, prog, a).value;
      if CrossesPage(a.dot, walked.dot) {
        WalkFilled(s.body, sub, prog, MoveToPage(a, walked));
      }
    }
  }

  lemma {:induction false} WalkFilled(s: Stmt, sub: pos, prog: Program, a: State)
    requires Walk(s, sub, prog, a).Some? && NoFill(s)
    ensures a.extras <= Walk(s, sub, prog, a).value.extras && Walk(s, sub, prog, a).value.fill == a.fill
    ensures FilledWith(PiecesOf(s), |a.extras|, a.fill, Walk(s, sub, prog, a).value)
    decreases s, 1
  {
    if !s.End? {
      var b := Exec(s, sub, prog, a).value;
      ExecFilled(s, sub, prog, a);
      WalkFilled(s.next, sub, prog, b);
      JoinFilled(PiecesBy(s), s.next, sub, |a.extras|, prog, b);
    }
  }

  lemma GapCovers(to: int, prog: Program, a: State)
    requires to >= a.dot && a.fill != 0 && a.cur.Some?
    ensures Covers([], |a.extras|, a.dot, to, prog, Gap(to, a).(dot := to))
    ensures a.extras <= Gap(to, a).extras
  {
    var b := Gap(to, a).(dot := to);
    forall x | a.dot <= x < to
      ensures InExtra(x, |a.extras|, b)
    {
      assert b.extras[|a.extras|] == Extra(a.cur, a.dot, to - a.dot, a.fill, false);
    }
  }

  lemma {:induction false} ExecCovers(s: Stmt, sub: pos, prog: Program, a: State)
    requires !s.End? && Exec(s, sub, prog, a).Some? && Distinct(PiecesBy(s))
    requires !s.Fill? && (s.OnePage? ==> NoFill(s.body)) && a.fill != 0 && a.cur.Some?
    ensures Exec(s, sub, prog, a).value.fill == a.fill
    ensures Covers(PiecesBy(s), |a.extras|, a.dot, Exec(s, sub, prog, a).value.dot, prog, Exec(s, sub, prog, a).value)
    decreases s, 0
  {
    var b := Exec(s, sub, prog, a).value;
    if s.Input? {
      PiecesCover(s.pieces, sub, prog, a);
    } else if s.OnePage? {
      OnePageCovers(s, sub, prog, a);
    } else if s.SetDot? {
      GapCovers(b.dot, prog, a);
    } else if s.Data? {
      forall x | a.dot <= x < b.dot
        ensures InExtra(x, |a.extras|, b)
      {
        assert b.extras[|a.extras|].vma <= x < ExtraEnd(b.extras[|a.extras|]);
      }
    }
  }

  lemma {:induction false} OnePageCovers(s: Stmt, sub: pos, prog: Program, a: State)
    requires s.OnePage? && Exec(s, sub, prog, a).Some? && Distinct(PiecesOf(s.body))
    requires NoFill(s.body) && a.fill != 0 && a.cur.Some?
    ensures Exec(s, sub, prog, a).value.fill == a.fill
    ensures Covers(PiecesOf(s.body), |a.extras|, a.dot, Exec(s, sub, prog, a).value.dot, prog, Exec(s, sub, prog, a).value)
    decreases s.body, 2
  {
    var walked := Walk(s.body, sub, prog, a).value;
    if CrossesPage(a.dot, walked.dot) {
      var moved := MoveToPage(a, walked);
      var b := Walk(s.body, sub, prog, moved).value;
      PageUpBounds(a.dot);
      WalkOnly(s.body, sub, prog, a);
      GapCovers(PageUp(a.dot), prog, walked.(extras := a.extras, fill := a.fill, dot := a.dot));
      WalkCovers(s.body, sub, prog, moved);
      WalkPacks(s.body, sub, prog, moved);
      assert Keeps([], moved, b) by {
        WalkOnly(s.body, sub, prog, moved);
      }
      JoinCovers([], PiecesOf(s.body), |a.extras|, a.dot, moved.dot, b.dot, prog, moved, b);
      assert [] + PiecesOf(s.body) == PiecesOf(s.body);
    } else {
      WalkCovers(s.body, sub, prog, a);
    }
  }

  lemma {:induction false} WalkCovers(s: Stmt, sub: pos, prog: Program, a: State)
    requires Walk(s, sub, prog, a).Some? && Distinct(PiecesOf(s)) && NoFill(s) && a.fill != 0 && a.cur.Some?
    ensures Walk(s, sub, prog, a).value.fill == a.fill
    ensures Covers(PiecesOf(s), |a.extras|, a.dot, Walk(s, sub, prog, a).value.dot, prog, Walk(s, sub, prog, a).value)
    decreases s, 1
  {
    if !s.End? {
      var ps, qs := PiecesBy(s), PiecesOf(s.next);
      DistinctParts(ps, qs);
      var b := Exec(s, sub, prog, a).value;
      var c := Walk(s.next, sub, prog, b).value;
      ExecCovers(s, sub, prog, a);
      ExecPacks(s, sub, prog, a);
      ExecOnly(s, sub, prog, a);
      WalkCovers(s.next, sub, prog, b);
      WalkPacks(s.next, sub, prog, b);
      WalkKeeps(ps, s.next, sub, prog, b);
      JoinCovers(ps, qs, |a.extras|, a.dot, b.dot, c.dot, prog, b, c);
    }
  }

  // ---- sections

  /** The fill byte that the script gives a section: its own, the script's, or zero. */
  ghost predicate FillsWith(s: Section, prog: Program, here: State, f: int) {
    if s.fill.Some? then exists v :: Evaluates(s.fill.value, prog, here, v) && StandsFor(f, v, 256)
    else if prog.globalFill.Some? then exists v :: Evaluates(prog.globalFill.value, prog, here, v) && StandsFor(f, v, 256)
    else f == 0
  }

  /** The granule of SUBALIGN, a power of two. */
  ghost predicate Granule(s: Section, prog: Program, here: State, n: int) {
    IsPowerOfTwo(n) && (if s.subalign.Some? then Evaluates(s.subalign.value, prog, here, n) else n == 1)
  }

  /** The load address: AT, behind what the load region holds, or the address itself. */
  ghost predicate LoadsAt(s: Section, prog: Program, placed: State, start: int, v: int) {
    if s.at.Some? then Evaluates(s.at.value, prog, placed, v)
    else if s.lmaRegion.Some? then v == At(placed.store, Cursor(s.lmaRegion.value))
    else v == start
  }

  lemma OpenLoadsAt(s: Section, prog: Program, a: State) returns (placed: State)
    requires OpenSection(s, prog, a).Some?
    ensures LoadsAt(s, prog, placed, SectVma(s, OpenSection(s, prog, a).value.0), SectLma(s, OpenSection(s, prog, a).value.0))
    ensures forall name :: At(placed.store, Cursor(name)) == At(a.store, Cursor(name))
    ensures SectVma(s, placed) == SectVma(s, OpenSection(s, prog, a).value.0) && placed.dot == a.dot
  {
    placed := Write(Vma(s.name), Start(s, prog, a.(cur := Some(s.name))).value, a.(cur := Some(s.name)));
    if s.at.Some? {
      Valued(s.at.value, prog, placed);
    }
  }

  lemma OpenGranule(s: Section, prog: Program, a: State)
    requires OpenSection(s, prog, a).Some?
    ensures Granule(s, prog, a.(cur := Some(s.name)), OpenSection(s, prog, a).value.1)
  {
    if s.subalign.Some? {
      Valued(s.subalign.value, prog, a.(cur := Some(s.name)));
    }
    PowersAreRecognised(OpenSection(s, prog, a).value.1);
    PowersAreRecognised(1);
  }

  lemma OpenFillsWith(s: Section, prog: Program, a: State) returns (loaded: State)
    requires OpenSection(s, prog, a).Some?
    ensures FillsWith(s, prog, loaded, OpenSection(s, prog, a).value.0.fill)
  {
    var here := a.(cur := Some(s.name));
    var start := Start(s, prog, here).value;
    var placed := Write(Vma(s.name), start, here);
    loaded := Write(Lma(s.name), LoadAddress(s, start, prog, placed).value, placed);
    if s.fill.Some? {
      FillByteFits(s.fill.value, prog, loaded, SectionFill(s, prog, loaded).value);
    } else if prog.globalFill.Some? {
      FillByteFits(prog.globalFill.value, prog, loaded, SectionFill(s, prog, loaded).value);
    }
  }

  /** The load address of a section in an accepted layout. */
  lemma SectionLoads(prog: Program, i: nat) returns (placed: State)
    requires LayoutOf(prog).Some? && Placeable(SectionsOf(prog.top)) && i < |SectionsOf(prog.top)|
    ensures LoadsAt(SectionsOf(prog.top)[i], prog, placed,
                    SectVma(SectionsOf(prog.top)[i], Accepted(prog)), SectLma(SectionsOf(prog.top)[i], Accepted(prog)))
    ensures SectVma(SectionsOf(prog.top)[i], placed) == SectVma(SectionsOf(prog.top)[i], Accepted(prog))
    ensures forall name | prog.HasRegion(name) ::
              At(placed.store, Cursor(name)) == RegionEnd(name, SectionsOf(prog.top)[..i], Accepted(prog))
  {
    var s, done := SectionsOf(prog.top)[i], SectionsOf(prog.top)[..i];
    var before := LayoutFinds(prog, i);
    placed := OpenLoadsAt(s, prog, before);
    BodyKeepsStart(s, prog, before);
    forall name | prog.HasRegion(name)
      ensures At(placed.store, Cursor(name)) == RegionEnd(name, done, Accepted(prog))
    {
      RegionEndSame(name, done, before, Accepted(prog));
    }
  }

  /** The padding of a section's pieces in an accepted layout. */
  lemma SectionPads(prog: Program, i: nat) returns (here: State, granule: pos)
    requires LayoutOf(prog).Some? && Placeable(SectionsOf(prog.top)) && i < |SectionsOf(prog.top)|
    ensures Granule(SectionsOf(prog.top)[i], prog, here, granule)
    ensures forall p <- PiecesOf(SectionsOf(prog.top)[i].body) ::
              Pads(prog.PieceSize(p), granule, At(Accepted(prog).store, PiecePad(p)))
  {
    var s := SectionsOf(prog.top)[i];
    var before := LayoutFinds(prog, i);
    var (begun, sub) := OpenSection(s, prog, before).value;
    here, granule := before.(cur := Some(s.name)), sub;
    OpenGranule(s, prog, before);
    WalkPadded(s.body, sub, prog, begun);
    ClosedKeepsPieces(s, Walk(s.body, sub, prog, begun).value);
    forall p <- PiecesOf(s.body)
      ensures Pads(prog.PieceSize(p), granule, At(Accepted(prog).store, PiecePad(p)))
    {
      PadForPads(prog.PieceSize(p), sub, At(Accepted(prog).store, PiecePad(p)));
    }
  }

  lemma ClosedKeepsPieces(s: Section, a: State)
    ensures forall p: nat :: At(CloseSection(s, a).store, PiecePad(p)) == At(a.store, PiecePad(p))
    ensures forall p: nat :: At(CloseSection(s, a).store, PieceVma(p)) == At(a.store, PieceVma(p))
    ensures forall p: nat :: At(CloseSection(s, a).store, PieceFill(p)) == At(a.store, PieceFill(p))
  {
  }

  /** The address belongs to a datum or a filled gap of the section. */
  ghost predicate InSection(x: int, s: Section, st: State) {
    exists k | 0 <= k < |st.extras| :: st.extras[k].sect == Some(s.name) && st.extras[k].vma <= x < ExtraEnd(st.extras[k])
  }

  lemma CoveredStays(x: int, s: Section, from: nat, prog: Program, walked: State, st: State)
    requires walked.cur == Some(s.name)
    requires InPiece(x, PiecesOf(s.body), prog, walked) || InExtra(x, from, walked)
    requires SameSection(s, CloseSection(s, walked), st)
    ensures InPiece(x, PiecesOf(s.body), prog, st) || InSection(x, s, st)
  {
    ClosedKeepsPieces(s, walked);
    if p: nat :| p in PiecesOf(s.body) && Lo(p, walked) <= x < Hi(p, prog, walked) {
      assert Lo(p, st) <= x < Hi(p, prog, st);
    } else {
      var k :| from <= k < |walked.extras| && walked.extras[k].sect == walked.cur
               && walked.extras[k].vma <= x < ExtraEnd(walked.extras[k]);
      assert st.extras[k] == walked.extras[k];
    }
  }

  ghost predicate GapsHave(s: Section, f: int, st: State) {
    forall k | 0 <= k < |st.extras| && st.extras[k].sect == Some(s.name) && !st.extras[k].data :: st.extras[k].value == f
  }

  lemma SectionFilled(s: Section, done: seq<Section>, prog: Program, a: State, st: State)
    requires LaidFrom(s, done, prog, a, st) && NoFill(s.body) && s.name !in Names(done)
    ensures forall p <- PiecesOf(s.body) :: At(st.store, PieceFill(p)) == OpenSection(s, prog, a).value.0.fill
    ensures GapsHave(s, OpenSection(s, prog, a).value.0.fill, st)
  {
    var (begun, sub) := OpenSection(s, prog, a).value;
    var walked := Walk(s.body, sub, prog, begun).value;
    OpenFacts(s, prog, a);
    WalkFilled(s.body, sub, prog, begun);
    ClosedKeepsPieces(s, walked);
    CloseFacts(s, prog, walked);
    assert forall k | 0 <= k < |walked.extras| :: st.extras[k] == walked.extras[k];
    assert forall k | 0 <= k < |a.extras| :: walked.extras[k] == a.extras[k];
  }

  /** In an accepted layout the padding and the gaps of a section have the fill byte that the script
      gives it. */
  lemma SectionHasFill(prog: Program, i: nat) returns (loaded: State, f: int)
    requires LayoutOf(prog).Some? && Placeable(SectionsOf(prog.top)) && i < |SectionsOf(prog.top)|
    requires NoFill(SectionsOf(prog.top)[i].body)
    ensures FillsWith(SectionsOf(prog.top)[i], prog, loaded, f)
    ensures forall p <- PiecesOf(SectionsOf(prog.top)[i].body) :: At(Accepted(prog).store, PieceFill(p)) == f
    ensures GapsHave(SectionsOf(prog.top)[i], f, Accepted(prog))
  {
    var s, done := SectionsOf(prog.top)[i], SectionsOf(prog.top)[..i];
    var before := LayoutFinds(prog, i);
    loaded := OpenFillsWith(s, prog, before);
    f := OpenSection(s, prog, before).value.0.fill;
    SplitSections(SectionsOf(prog.top), i);
    NextPlaceable(done, s, SectionsOf(prog.top)[i + 1..]);
    SectionFilled(s, done, prog, before, Accepted(prog));
  }

  lemma SplitSections(ss: seq<Section>, i: nat)
    requires i < |ss|
    ensures ss == ss[..i] + [ss[i]] + ss[i + 1..]
  {
  }

  /** In an accepted layout a section with a fill byte is full: every one of its addresses belongs
      to a piece or its padding, to a datum or to a filled gap. With no byte skipped and none used
      twice (`Disjointness`), the contents are a partition of the section. */
  lemma SectionIsFull(prog: Program, i: nat) returns (loaded: State, f: int)
    requires LayoutOf(prog).Some? && Placeable(SectionsOf(prog.top)) && i < |SectionsOf(prog.top)|
    ensures FillsWith(SectionsOf(prog.top)[i], prog, loaded, f)
    ensures f != 0 && NoFill(SectionsOf(prog.top)[i].body) ==>
              forall x | SectVma(SectionsOf(prog.top)[i], Accepted(prog)) <= x < SectEnd(SectionsOf(prog.top)[i], Accepted(prog)) ::
                InPiece(x, PiecesOf(SectionsOf(prog.top)[i].body), prog, Accepted(prog))
                || InSection(x, SectionsOf(prog.top)[i], Accepted(prog))
  {
    var s, st := SectionsOf(prog.top)[i], Accepted(prog);
    var before := LayoutFinds(prog, i);
    var (begun, sub) := OpenSection(s, prog, before).value;
    loaded := OpenFillsWith(s, prog, before);
    f := begun.fill;
    if f != 0 && NoFill(s.body) {
      PiecesAreDistinct(SectionsOf(prog.top), i);
      SectionCovers(s, prog, before, st);
    }
  }

  lemma PiecesAreDistinct(ss: seq<Section>, i: nat)
    requires Placeable(ss) && i < |ss|
    ensures Distinct(PiecesOf(ss[i].body))
  {
    SplitSections(ss, i);
    NextPlaceable(ss[..i], ss[i], ss[i + 1..]);
  }

  lemma SectionCovers(s: Section, prog: Program, a: State, st: State)
    requires LayoutSection(s, prog, a).Some? && SameSection(s, LayoutSection(s, prog, a).value, st)
    requires OpenSection(s, prog, a).value.0.fill != 0 && NoFill(s.body) && Distinct(PiecesOf(s.body))
    ensures forall x | SectVma(s, st) <= x < SectEnd(s, st) ::
              InPiece(x, PiecesOf(s.body), prog, st) || InSection(x, s, st)
  {
    var (begun, sub) := OpenSection(s, prog, a).value;
    var walked := Walk(s.body, sub, prog, begun).value;
    OpenFacts(s, prog, a);
    WalkOnly(s.body, sub, prog, begun);
    WalkCovers(s.body, sub, prog, begun);
    BodyKeepsStart(s, prog, a);
    BodyLeavesSection(s.body, prog, Vma(s.name));
    CloseFacts(s, prog, walked);
    forall x | SectVma(s, st) <= x < SectEnd(s, st)
      ensures InPiece(x, PiecesOf(s.body), prog, st) || InSection(x, s, st)
    {
      CoveredStays(x, s, |begun.extras|, prog, walked, st);
    }
  }

  // ---- sections in script order

  /** What the script has just before a section says where `.` is: at the end of the section before,
      or at the value of `. = e`. */
  ghost predicate DotAfter(t: Top, prog: Program, dot: int, st: State) {
    match t
    case TopSection(s) => dot == SectEnd(s, st)
    case TopDot(e) => exists before :: Evaluates(e, prog, before, dot)
    case _ => true
  }

  lemma TopLeavesDot(t: Top, prog: Program, a: State)
    requires ExecTop(t, prog, a).Some?
    ensures DotAfter(t, prog, ExecTop(t, prog, a).value.dot, ExecTop(t, prog, a).value)
    ensures !t.TopSection? && !t.TopDot? ==> ExecTop(t, prog, a).value.dot == a.dot
  {
    if t.TopSection? {
      var (begun, sub) := OpenSection(t.sect, prog, a).value;
      CloseFacts(t.sect, prog, Walk(t.sect.body, sub, prog, begun).value);
    } else if t.TopDot? {
      Valued(t.e, prog, a);
    }
  }

  lemma FirstFollows(done: seq<Section>, top: seq<Top>, prog: Program, a: State) returns (here: State)
    requires Laid(done, prog, a) && CursorsStand(done, prog, a) && RunTop(top, prog, a).Some?
    requires Placeable(done + SectionsOf(top)) && top != [] && top[0].TopSection?
    ensures here.dot == a.dot && StartsAt(top[0].sect, prog, here, SectVma(top[0].sect, RunTop(top, prog, a).value))
  {
    NextIsLaidFrom(done, top, prog, a);
    OpenStarts(top[0].sect, prog, a);
    BodyKeepsStart(top[0].sect, prog, a);
    here := a.(cur := Some(top[0].sect.name));
  }

  /** Section k + 1 of the script's top level starts where item k has left `.`. */
  lemma {:induction false} TopFollows(done: seq<Section>, top: seq<Top>, prog: Program, a: State, k: nat) returns (here: State)
    requires Laid(done, prog, a) && CursorsStand(done, prog, a) && RunTop(top, prog, a).Some?
    requires Placeable(done + SectionsOf(top)) && k + 1 < |top| && top[k + 1].TopSection?
    ensures DotAfter(top[k], prog, here.dot, RunTop(top, prog, a).value)
    ensures StartsAt(top[k + 1].sect, prog, here, SectVma(top[k + 1].sect, RunTop(top, prog, a).value))
    decreases k
  {
    var b := ExecTop(top[0], prog, a).value;
    var rest := done + (if top[0].TopSection? then [top[0].sect] else []);
    NextTop(done, top, prog, a);
    if k == 0 {
      TopLeavesDot(top[0], prog, a);
      here := FirstFollows(rest, top[1..], prog, b);
    } else {
      here := TopFollows(rest, top[1..], prog, b, k - 1);
    }
  }

  lemma NextTop(done: seq<Section>, top: seq<Top>, prog: Program, a: State)
    requires Laid(done, prog, a) && CursorsStand(done, prog, a) && RunTop(top, prog, a).Some?
    requires top != [] && Placeable(done + SectionsOf(top))
    ensures Laid(done + (if top[0].TopSection? then [top[0].sect] else []), prog, ExecTop(top[0], prog, a).value)
    ensures CursorsStand(done + (if top[0].TopSection? then [top[0].sect] else []), prog, ExecTop(top[0], prog, a).value)
    ensures Placeable(done + (if top[0].TopSection? then [top[0].sect] else []) + SectionsOf(top[1..]))
    ensures top[0].TopSection? ==> SameSection(top[0].sect, ExecTop(top[0], prog, a).value, RunTop(top, prog, a).value)
  {
    if top[0].TopSection? {
      NextIsLaidFrom(done, top, prog, a);
    } else {
      OtherTopKeeps(done, top[0], prog, a);
      OtherTopStands(done, top[0], prog, a);
      assert SectionsOf(top) == SectionsOf(top[1..]);
      assert done + [] == done;
    }
  }

  /** A symbol that the top level assigns, and nothing assigns later. */
  ghost predicate LastAssigned(top: seq<Top>, k: nat, prog: Program) {
    && k < |top| && top[k].TopAssign? && top[k].kind != Provide
    && SymbolValue(top[k].sym) !in AllTopCells(top[k + 1..], prog)
  }

  lemma {:induction false} TopAssigns(top: seq<Top>, prog: Program, a: State, k: nat) returns (here: State)
    requires RunTop(top, prog, a).Some? && LastAssigned(top, k, prog)
    ensures Evaluates(top[k].e, prog, here, At(RunTop(top, prog, a).value.store, SymbolValue(top[k].sym)))
    decreases k
  {
    if k == 0 {
      here := a;
      Valued(top[0].e, prog, a);
      RunTopFrame(top[1..], prog, ExecTop(top[0], prog, a).value);
    } else {
      assert top[k + 1..] == top[1..][k..];
      here := TopAssigns(top[1..], prog, ExecTop(top[0], prog, a).value, k - 1);
    }
  }

  /** In an accepted layout a symbol has the value of the last expression that the top level assigns
      to it, as the linker knew it there. */
  lemma SymbolsAreMeanings(prog: Program, k: nat) returns (here: State)
    requires LayoutOf(prog).Some? && LastAssigned(prog.top, k, prog)
    ensures Evaluates(prog.top[k].e, prog, here, At(Accepted(prog).store, SymbolValue(prog.top[k].sym)))
  {
    var before := LoopAccepts(PassOf(prog), Stable(prog), INITIAL, 0);
    var ready := PassIsReady(prog, before);
    here := TopAssigns(prog.top, prog, ready, k);
  }

  /** In an accepted layout, a section directly behind another one or behind `. = e` starts from
      there, unless it is given an address or a region. */
  lemma SectionFollows(prog: Program, k: nat) returns (here: State)
    requires LayoutOf(prog).Some? && Placeable(SectionsOf(prog.top))
    requires k + 1 < |prog.top| && prog.top[k + 1].TopSection?
    ensures DotAfter(prog.top[k], prog, here.dot, Accepted(prog))
    ensures StartsAt(prog.top[k + 1].sect, prog, here, SectVma(prog.top[k + 1].sect, Accepted(prog)))
  {
    var before := LoopAccepts(PassOf(prog), Stable(prog), INITIAL, 0);
    var ready := PassIsReady(prog, before);
    here := TopFollows([], prog.top, prog, ready, k);
  }

  /** A script that begins with a section starts it at 0, unless it is given an address or a region. */
  lemma FirstSection(prog: Program) returns (here: State)
    requires LayoutOf(prog).Some? && Placeable(SectionsOf(prog.top)) && prog.top != [] && prog.top[0].TopSection?
    ensures here.dot == 0 && StartsAt(prog.top[0].sect, prog, here, SectVma(prog.top[0].sect, Accepted(prog)))
  {
    var before := LoopAccepts(PassOf(prog), Stable(prog), INITIAL, 0);
    var ready := PassIsReady(prog, before);
    here := FirstFollows([], prog.top, prog, ready);
  }

  // ---- what the checks and the names say

  /** Whatever is in a section with a region lies in that region. */
  lemma ItemsStayInRegion(x: Item, s: Section, prog: Program, st: State)
    requires Laid(SectionsOf(prog.top), prog, st) && Checked(prog, st) && s in SectionsOf(prog.top)
    requires Inside(x, s, prog, st) && s.region.Some?
    ensures At(st.store, Org(s.region.value)) <= ItemLo(x, prog, st)
    ensures ItemHi(x, prog, st) <= At(st.store, Org(s.region.value)) + At(st.store, Len(s.region.value))
  {
    InsideBounds(x, s, prog, st);
  }

  /** After layout the names give the sections' addresses and sizes, and the regions' extents. */
  lemma NamesLocate(s: Section, region: string, prog: Program, st: State, v: int)
    requires st.cur == None && s in SectionsOf(prog.top) && prog.HasRegion(region)
    ensures Evaluates(OfName(ADDR, s.name), prog, st, v) <==> v == SectVma(s, st)
    ensures Evaluates(OfName(LOADADDR, s.name), prog, st, v) <==> v == SectLma(s, st)
    ensures Evaluates(OfName(SIZEOF, s.name), prog, st, v) <==> v == SectEnd(s, st) - SectVma(s, st)
    ensures Evaluates(OfName(ORIGIN, region), prog, st, v) <==> v == At(st.store, Org(region))
    ensures Evaluates(OfName(LENGTH, region), prog, st, v) <==> v == At(st.store, Len(region))
  {
  }

  /** A module's symbol is where its input section is, unless the script has its own value for it. */
  lemma ModulesLocate(x: string, prog: Program, st: State, v: int)
    requires !prog.ScriptOwns(x) && x in prog.modSymbols
    ensures Evaluates(Sym(x), prog, st, v) <==>
              (match prog.modSymbols[x] case AbsSymbol(a) => v == a case PieceSymbol(p, off) => v == Lo(p, st) + off)
  {
  }

  /** An undefined name has no value. */
  lemma UnknownNames(f: NameFn, x: string, prog: Program, st: State, v: int)
    requires f != DEFINED && !prog.HasSection(x) && !prog.HasRegion(x)
    ensures !Evaluates(OfName(f, x), prog, st, v)
    ensures x !in prog.symbols && x !in prog.modSymbols ==> !Evaluates(Sym(x), prog, st, v)
  {
  }

  /** A layout is accepted within ten passes, or not at all. */
  lemma {:induction false} LoopEnds(step: Step, stable: State -> bool, st: State, done: nat)
    requires done < 10 && LayoutLoop(step, stable, st, done).Some?
    ensures done < LayoutLoop(step, stable, st, done).value.1 <= 10
    decreases 10 - done
  {
    if !(done > 0 && stable(step(st).value)) {
      LoopEnds(step, stable, Remember(step(st).value), done + 1);
    }
  }
}
