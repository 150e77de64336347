/** An accepted layout is a fixpoint of the pass: what the last pass used of
    things that come later in the script is what those things turned out to be. */
module Fixpoint {
  import opened Prelude
  import opened ScriptSyntax
  import opened Layout
  import opened InformationFlow
  import opened Settling

  /** Cells that a pass may read before it writes them. */
  predicate Carried(c: Cell) {
    !c.PiecePad? && !c.PieceFill? && !c.Cursor?
  }

  predicate RegionExtent(c: Cell) {
    c.Org? || c.Len?
  }

  /** What the parser and the placement of input sections guarantee: assigned
      symbols and placed pieces are known, and so are the regions used. */
  ghost predicate WellFormed(prog: Program) {
    && (forall c <- PassCells(prog) :: Carried(c) ==> Observed(c, prog) || RegionExtent(c))
    && (forall s <- SectionsOf(prog.top) ::
          (s.region.Some? ==> prog.HasRegion(s.region.value))
          && (s.lmaRegion.Some? ==> prog.HasRegion(s.lmaRegion.value)))
  }

  /** Running another pass gives the same layout again. */
  ghost predicate Reproduces(prog: Program, st: State) {
    && Pass(prog, st).Some?
    && var again := Pass(prog, st).value;
    && (forall c :: At(again.store, c) == At(st.store, c))
    && again.dot == st.dot && again.extras == st.extras && again.failed == st.failed && again.bound == st.bound
  }

  /** Evaluating the MEMORY block again gives the same origins and lengths. */
  ghost predicate RegionsHold(prog: Program, st: State) {
    && SetRegions(prog.regions, prog, Reset(st)).Some?
    && forall c | RegionExtent(c) ::
         At(SetRegions(prog.regions, prog, Reset(st)).value.store, c) == At(st.store, c)
  }

  /** Everything must agree afterwards; everything carried over agrees before. */
  ghost function Whole(prog: Program): View {
    View(prog, (c: Cell) => true, (c: Cell) => Carried(c))
  }

  ghost predicate Clear(f: Flow, prog: Program) {
    && f.dotLow && f.auxLow && (f.cur.Some? ==> f.fillLow)
    && RegionCells(prog.regions) <= f.wrote
  }

  // ---- with everything shared, the two runs also succeed together

  lemma {:induction false} LowEverything(e: Expr, f: Flow, prog: Program)
    requires f.dotLow
    ensures LowExpr(e, f, Whole(prog))
  {
    match e
    case AlignDot(a) => LowEverything(a, f, prog);
    case Unary(_, a) => LowEverything(a, f, prog);
    case OfPair(_, a, b) =>
      LowEverything(a, f, prog);
      LowEverything(b, f, prog);
    case Binary(_, a, b) =>
      LowEverything(a, f, prog);
      LowEverything(b, f, prog);
    case Cond(a, b, c) =>
      LowEverything(a, f, prog);
      LowEverything(b, f, prog);
      LowEverything(c, f, prog);
    case _ =>
  }

  lemma EvalSame(e: Expr, f: Flow, prog: Program, a: State, b: State)
    requires f.dotLow && Agree(f, Whole(prog), a, b)
    ensures LowExpr(e, f, Whole(prog))
    ensures Eval(e, prog, a) == Eval(e, prog, b)
  {
    LowEverything(e, f, prog);
    EvalAgrees(e, f, Whole(prog), a, b);
  }

  lemma {:induction false} CheckExecClear(s: Stmt, f: Flow, prog: Program)
    requires !s.End? && Clear(f, prog) && f.cur.Some?
    ensures CheckExec(s, true, f, Whole(prog)).Some?
    ensures Clear(CheckExec(s, true, f, Whole(prog)).value, prog)
    ensures CheckExec(s, true, f, Whole(prog)).value.cur == f.cur
    decreases s, 0
  {
    if s.OnePage? {
      CheckWalkClear(s.body, f, prog);
      CheckWalkClear(s.body, Moved(f, CheckWalk(s.body, true, f, Whole(prog)).value), prog);
    } else if !s.Input? {
      LowEverything(s.e, f, prog);
    }
  }

  lemma {:induction false} CheckWalkClear(s: Stmt, f: Flow, prog: Program)
    requires Clear(f, prog) && f.cur.Some?
    ensures CheckWalk(s, true, f, Whole(prog)).Some?
    ensures Clear(CheckWalk(s, true, f, Whole(prog)).value, prog)
    ensures CheckWalk(s, true, f, Whole(prog)).value.cur == f.cur
    decreases s, 1
  {
    if !s.End? {
      CheckExecClear(s, f, prog);
      CheckWalkClear(s.next, CheckExec(s, true, f, Whole(prog)).value, prog);
    }
  }

  lemma {:induction false} ExecSame(s: Stmt, sub: pos, f: Flow, prog: Program, a: State, b: State)
    requires !s.End? && Clear(f, prog) && f.cur.Some? && Agree(f, Whole(prog), a, b)
    ensures Exec(s, sub, prog, a).Some? <==> Exec(s, sub, prog, b).Some?
    decreases s, 0
  {
    if s.OnePage? {
      var v, body := Whole(prog), s.body;
      WalkSame(body, sub, f, prog, a, b);
      CheckWalkClear(body, f, prog);
      var once := CheckWalk(body, true, f, v).value;
      if Walk(body, sub, prog, a).Some? {
        WalkAgrees(body, sub, sub, true, f, v, a, b);
        var a1, b1 := Walk(body, sub, prog, a).value, Walk(body, sub, prog, b).value;
        var a2, b2 := MoveToPage(a, a1), MoveToPage(b, b1);
        ScalarsAgree(once, Moved(f, once), v, a1, b1, a2, b2);
        WalkSame(body, sub, Moved(f, once), prog, a2, b2);
      }
    } else if !s.Input? {
      EvalSame(s.e, f, prog, a, b);
    }
  }

  lemma {:induction false} WalkSame(s: Stmt, sub: pos, f: Flow, prog: Program, a: State, b: State)
    requires Clear(f, prog) && f.cur.Some? && Agree(f, Whole(prog), a, b)
    ensures Walk(s, sub, prog, a).Some? <==> Walk(s, sub, prog, b).Some?
    decreases s, 1
  {
    if !s.End? {
      ExecSame(s, sub, f, prog, a, b);
      CheckExecClear(s, f, prog);
      if Exec(s, sub, prog, a).Some? {
        ExecAgrees(s, sub, sub, true, f, Whole(prog), a, b);
        WalkSame(s.next, sub, CheckExec(s, true, f, Whole(prog)).value, prog,
                 Exec(s, sub, prog, a).value, Exec(s, sub, prog, b).value);
      }
    }
  }

  ghost predicate KnownRegions(sect: Section, prog: Program) {
    && (sect.region.Some? ==> prog.HasRegion(sect.region.value))
    && (sect.lmaRegion.Some? ==> prog.HasRegion(sect.lmaRegion.value))
  }

  lemma {:induction false} RegionCellsHave(rs: seq<Region>, r: Region)
    requires r in rs
    ensures Org(r.name) in RegionCells(rs) && Len(r.name) in RegionCells(rs) && Cursor(r.name) in RegionCells(rs)
  {
    if r != rs[0] {
      RegionCellsHave(rs[1..], r);
    }
  }

  lemma CursorKnown(region: Option<string>, f: Flow, prog: Program)
    requires region.Some? && prog.HasRegion(region.value) && RegionCells(prog.regions) <= f.wrote
    ensures Cursor(region.value) in f.wrote
  {
    var r :| r in prog.regions && r.name == region.value;
    RegionCellsHave(prog.regions, r);
  }

  lemma LowExprs(e: Option<Expr>, f: Flow, prog: Program)
    requires f.dotLow
    ensures e.Some? ==> LowExpr(e.value, f, Whole(prog))
  {
    if e.Some? {
      LowEverything(e.value, f, prog);
    }
  }

  lemma CheckOpenClear(sect: Section, f: Flow, prog: Program)
    requires Clear(f, prog) && KnownRegions(sect, prog)
    ensures CheckOpen(sect, f, Whole(prog)).Some?
    ensures Clear(CheckOpen(sect, f, Whole(prog)).value, prog)
    ensures CheckOpen(sect, f, Whole(prog)).value.cur == Some(sect.name)
    ensures LowSub(sect, f.(cur := Some(sect.name)), Whole(prog))
  {
    var here := f.(cur := Some(sect.name));
    var placed := Wrote(Vma(sect.name), here);
    var loaded := Wrote(Lma(sect.name), placed);
    LowExprs(sect.addr, here, prog);
    LowExprs(sect.align, here, prog);
    LowExprs(sect.subalign, here, prog);
    LowExprs(sect.at, placed, prog);
    LowExprs(sect.fill, loaded, prog);
    LowExprs(prog.globalFill, loaded, prog);
    if sect.region.Some? {
      CursorKnown(sect.region, f, prog);
    }
    if sect.lmaRegion.Some? {
      CursorKnown(sect.lmaRegion, f, prog);
    }
  }

  lemma OpenSame(sect: Section, f: Flow, prog: Program, a: State, b: State)
    requires Clear(f, prog) && KnownRegions(sect, prog) && Agree(f, Whole(prog), a, b)
    ensures OpenSection(sect, prog, a).Some? <==> OpenSection(sect, prog, b).Some?
  {
    var v, n := Whole(prog), sect.name;
    var f0 := f.(cur := Some(n));
    var a0, b0 := a.(cur := Some(n)), b.(cur := Some(n));
    ScalarsAgree(f, f0, v, a, b, a0, b0);
    CheckOpenClear(sect, f, prog);
    StartSame(sect, f0, prog, a0, b0);
    if Start(sect, prog, a0).Some? && SubAlign(sect, prog, a0).Some? {
      var start := Start(sect, prog, a0).value;
      WriteAgrees(Vma(n), start, start, f0, v, a0, b0);
      var f1 := Wrote(Vma(n), f0);
      var a1, b1 := Write(Vma(n), start, a0), Write(Vma(n), start, b0);
      LoadSame(sect, start, f1, prog, a1, b1);
      if LoadAddress(sect, start, prog, a1).Some? {
        var lma := LoadAddress(sect, start, prog, a1).value;
        WriteAgrees(Lma(n), lma, lma, f1, v, a1, b1);
        FillSame(sect, Wrote(Lma(n), f1), prog, Write(Lma(n), lma, a1), Write(Lma(n), lma, b1));
      }
    }
  }

  lemma StartSame(sect: Section, f: Flow, prog: Program, a: State, b: State)
    requires f.dotLow && Agree(f, Whole(prog), a, b) && KnownRegions(sect, prog)
    requires RegionCells(prog.regions) <= f.wrote
    ensures Start(sect, prog, a) == Start(sect, prog, b)
    ensures SubAlign(sect, prog, a) == SubAlign(sect, prog, b)
  {
    OptionSame(sect.addr, f, prog, a, b);
    OptionSame(sect.align, f, prog, a, b);
    OptionSame(sect.subalign, f, prog, a, b);
    if sect.region.Some? {
      CursorKnown(sect.region, f, prog);
      assert Shared(Cursor(sect.region.value), f, Whole(prog));
    }
  }

  lemma OptionSame(e: Option<Expr>, f: Flow, prog: Program, a: State, b: State)
    requires f.dotLow && Agree(f, Whole(prog), a, b)
    ensures e.Some? ==> Eval(e.value, prog, a) == Eval(e.value, prog, b)
  {
    if e.Some? {
      EvalSame(e.value, f, prog, a, b);
    }
  }

  lemma LoadSame(sect: Section, start: int, f: Flow, prog: Program, a: State, b: State)
    requires f.dotLow && Agree(f, Whole(prog), a, b) && KnownRegions(sect, prog)
    requires RegionCells(prog.regions) <= f.wrote
    ensures LoadAddress(sect, start, prog, a) == LoadAddress(sect, start, prog, b)
  {
    OptionSame(sect.at, f, prog, a, b);
    if sect.lmaRegion.Some? {
      CursorKnown(sect.lmaRegion, f, prog);
      assert Shared(Cursor(sect.lmaRegion.value), f, Whole(prog));
    }
  }

  lemma FillSame(sect: Section, f: Flow, prog: Program, a: State, b: State)
    requires f.dotLow && Agree(f, Whole(prog), a, b)
    ensures SectionFill(sect, prog, a) == SectionFill(sect, prog, b)
  {
    OptionSame(sect.fill, f, prog, a, b);
    OptionSame(prog.globalFill, f, prog, a, b);
  }

  lemma CheckCloseClear(sect: Section, f: Flow, prog: Program)
    requires Clear(f, prog) && KnownRegions(sect, prog)
    ensures CheckClose(sect, f, Whole(prog)).Some?
    ensures Clear(CheckClose(sect, f, Whole(prog)).value, prog)
    ensures CheckClose(sect, f, Whole(prog)).value.cur == None
  {
    if sect.region.Some? {
      CursorKnown(sect.region, f, prog);
    }
    if sect.lmaRegion.Some? {
      CursorKnown(sect.lmaRegion, f, prog);
    }
  }

  lemma SectionSame(sect: Section, f: Flow, prog: Program, a: State, b: State)
    requires Clear(f, prog) && KnownRegions(sect, prog) && Agree(f, Whole(prog), a, b)
    ensures CheckSection(sect, f, Whole(prog)).Some?
    ensures Clear(CheckSection(sect, f, Whole(prog)).value, prog)
    ensures CheckSection(sect, f, Whole(prog)).value.cur == None
    ensures LayoutSection(sect, prog, a).Some? <==> LayoutSection(sect, prog, b).Some?
  {
    var v := Whole(prog);
    CheckOpenClear(sect, f, prog);
    var begun := CheckOpen(sect, f, v).value;
    CheckWalkClear(sect.body, begun, prog);
    CheckCloseClear(sect, CheckWalk(sect.body, true, begun, v).value, prog);
    OpenSame(sect, f, prog, a, b);
    if OpenSection(sect, prog, a).Some? {
      OpenAgrees(sect, f, v, a, b);
      var (a1, sub) := OpenSection(sect, prog, a).value;
      WalkSame(sect.body, sub, begun, prog, a1, OpenSection(sect, prog, b).value.0);
    }
  }

  lemma ExecTopSame(t: Top, f: Flow, prog: Program, a: State, b: State)
    requires Clear(f, prog) && f.cur == None && Agree(f, Whole(prog), a, b)
    requires t.TopSection? ==> KnownRegions(t.sect, prog)
    ensures CheckExecTop(t, f, Whole(prog)).Some?
    ensures Clear(CheckExecTop(t, f, Whole(prog)).value, prog)
    ensures CheckExecTop(t, f, Whole(prog)).value.cur == None
    ensures ExecTop(t, prog, a).Some? <==> ExecTop(t, prog, b).Some?
  {
    if t.TopSection? {
      SectionSame(t.sect, f, prog, a, b);
    } else {
      EvalSame(t.e, f, prog, a, b);
    }
  }

  lemma {:induction false} TopSame(top: seq<Top>, f: Flow, prog: Program, a: State, b: State)
    requires Clear(f, prog) && f.cur == None && Agree(f, Whole(prog), a, b)
    requires forall s <- SectionsOf(top) :: KnownRegions(s, prog)
    requires RunTop(top, prog, a).Some?
    ensures CheckTop(top, f, Whole(prog)).Some?
    ensures Clear(CheckTop(top, f, Whole(prog)).value, prog)
    ensures RunTop(top, prog, b).Some?
  {
    if top != [] {
      assert forall s <- SectionsOf(top[1..]) :: s in SectionsOf(top);
      assert top[0].TopSection? ==> top[0].sect in SectionsOf(top);
      ExecTopSame(top[0], f, prog, a, b);
      ExecTopAgrees(top[0], f, Whole(prog), a, b);
      TopSame(top[1..], CheckExecTop(top[0], f, Whole(prog)).value, prog,
              ExecTop(top[0], prog, a).value, ExecTop(top[0], prog, b).value);
    }
  }

  // ---- the accepted state

  /** The last two states of an accepted run. */
  lemma {:induction false} LoopAccepts(step: Step, stable: State -> bool, st: State, done: nat) returns (before: State)
    requires done < MAXPASSES && LayoutLoop(step, stable, st, done).Some?
    requires Remembered(st)
    ensures Remembered(before) && step(before).Some? && stable(step(before).value)
    ensures LayoutLoop(step, stable, st, done).value.0 == Remember(step(before).value)
    decreases MAXPASSES - done
  {
    var after := step(st).value;
    if done > 0 && stable(after) {
      before := st;
    } else {
      before := LoopAccepts(step, stable, Remember(after), done + 1);
    }
  }

  lemma {:induction false} TopLeavesRegions(top: seq<Top>, prog: Program, c: Cell)
    requires RegionExtent(c)
    ensures c !in AllTopCells(top, prog)
  {
    if top != [] {
      TopLeavesRegions(top[1..], prog, c);
      if top[0].TopSection? {
        BodyLeavesRegions(top[0].sect.body, prog, c);
      }
    }
  }

  lemma {:induction false} BodyLeavesRegions(s: Stmt, prog: Program, c: Cell)
    requires RegionExtent(c) || c.Cursor?
    ensures c !in Written(s, prog)
    decreases s
  {
    if !s.End? {
      BodyLeavesRegions(s.next, prog, c);
      if s.OnePage? {
        BodyLeavesRegions(s.body, prog, c);
      } else if s.Input? && c in PieceCells(s.pieces) {
        PieceCellsOnly(s.pieces, c);
      }
    }
  }

  lemma {:induction false} PieceCellsOnly(ps: seq<nat>, c: Cell)
    requires c in PieceCells(ps)
    ensures c.PieceVma? || c.PiecePad? || c.PieceFill?
  {
    if c in PieceCells(ps[1..]) {
      PieceCellsOnly(ps[1..], c);
    }
  }

  /** A region's cursor starts at its origin. */
  lemma {:induction false} CursorsStart(rs: seq<Region>, prog: Program, a: State, name: string)
    requires SetRegions(rs, prog, a).Some?
    requires Cursor(name) in RegionCells(rs) || At(a.store, Cursor(name)) == At(a.store, Org(name))
    ensures At(SetRegions(rs, prog, a).value.store, Cursor(name)) == At(SetRegions(rs, prog, a).value.store, Org(name))
  {
    if rs != [] {
      CursorsStart(rs[1..], prog, SetRegion(rs[0], prog, a).value, name);
    }
  }

  lemma {:induction false} RegionCellsOnly(rs: seq<Region>, c: Cell)
    requires c in RegionCells(rs)
    ensures RegionExtent(c) || c.Cursor?
  {
    if c in RegionCells(rs[1..]) {
      RegionCellsOnly(rs[1..], c);
    }
  }

  ghost function AtTop(prog: Program): Flow {
    Flow(RegionCells(prog.regions), None, true, false, true)
  }

  /** Where the last pass and another one have evaluated the MEMORY block alike,
      they agree on everything. */
  lemma ReadyAgrees(prog: Program, before: State, after: State, st: State)
    requires WellFormed(prog) && Remembered(before)
    requires Pass(prog, before) == Some(after) && Unchanged(prog, after) && st == Remember(after)
    requires RegionsHold(prog, st)
    ensures Agree(AtTop(prog), Whole(prog), SetRegions(prog.regions, prog, Reset(before)).value,
                  SetRegions(prog.regions, prog, Reset(st)).value)
  {
    var rs := prog.regions;
    var a, b := SetRegions(rs, prog, Reset(before)).value, SetRegions(rs, prog, Reset(st)).value;
    SetRegionsScalars(rs, prog, Reset(before));
    SetRegionsScalars(rs, prog, Reset(st));
    forall c | Shared(c, AtTop(prog), Whole(prog))
      ensures Value(c, a) == Value(c, b)
    {
      ReadyCell(prog, before, after, st, a, b, c);
    }
    forall x
      ensures SymbolValue(x) !in RegionCells(rs)
    {
      if SymbolValue(x) in RegionCells(rs) {
        RegionCellsOnly(rs, SymbolValue(x));
      }
    }
  }

  lemma ReadyCell(prog: Program, before: State, after: State, st: State, a: State, b: State, c: Cell)
    requires WellFormed(prog) && Remembered(before)
    requires Pass(prog, before) == Some(after) && Unchanged(prog, after) && st == Remember(after)
    requires RegionsHold(prog, st)
    requires a == SetRegions(prog.regions, prog, Reset(before)).value
    requires b == SetRegions(prog.regions, prog, Reset(st)).value
    requires a.prev == before.prev && b.prev == st.prev && a.bound == {} && b.bound == {}
    requires c in RegionCells(prog.regions) || Carried(c)
    ensures Value(c, a) == Value(c, b)
  {
    var rs := prog.regions;
    PassFrame(prog, before);
    SetRegionsFrame(rs, prog, Reset(before));
    SetRegionsFrame(rs, prog, Reset(st));
    RunTopFrame(prog.top, prog, a);
    if c in RegionCells(rs) {
      RegionCellsOnly(rs, c);
      if c.Cursor? {
        CursorsStart(rs, prog, Reset(before), c.region);
        CursorsStart(rs, prog, Reset(st), c.region);
        TopLeavesRegions(prog.top, prog, Org(c.region));
      } else {
        TopLeavesRegions(prog.top, prog, c);
      }
    } else if RegionExtent(c) {
      TopLeavesRegions(prog.top, prog, c);
    } else if c in PassCells(prog) {
      assert Observed(c, prog);
    }
  }

  lemma AgreeReproduces(prog: Program, before: State, after: State, st: State)
    requires WellFormed(prog) && Remembered(before)
    requires Pass(prog, before) == Some(after) && Unchanged(prog, after) && st == Remember(after)
    requires RegionsHold(prog, st)
    ensures Reproduces(prog, st)
  {
    var v := Whole(prog);
    var a, b := SetRegions(prog.regions, prog, Reset(before)).value, SetRegions(prog.regions, prog, Reset(st)).value;
    ReadyAgrees(prog, before, after, st);
    TopSame(prog.top, AtTop(prog), prog, a, b);
    TopAgrees(prog.top, AtTop(prog), v, a, b);
    CheckTopWrites(prog.top, AtTop(prog), v);
    var f, again := CheckTop(prog.top, AtTop(prog), v).value, RunTop(prog.top, prog, b).value;
    PassFrame(prog, st);
    SameAgain(prog, f, after, st, again);
  }

  lemma SameAgain(prog: Program, f: Flow, after: State, st: State, again: State)
    requires Agree(f, Whole(prog), after, again) && Clear(f, prog) && f.wrote == PassCells(prog)
    requires st == Remember(after) && Frame(PassCells(prog), st, again)
    ensures forall c :: At(again.store, c) == At(st.store, c)
    ensures again.dot == st.dot && again.extras == st.extras && again.failed == st.failed && again.bound == st.bound
  {
    forall c
      ensures At(again.store, c) == At(st.store, c)
    {
      if c in PassCells(prog) {
        assert Shared(c, f, Whole(prog));
        assert Value(c, after) == Value(c, again);
      }
    }
  }

  /** Fixpoint: an accepted layout is reproduced by another pass exactly when the
      MEMORY block evaluates to the same origins and lengths again. */
  lemma AcceptedIsFixpoint(prog: Program)
    requires WellFormed(prog) && LayoutOf(prog).Some?
    ensures Reproduces(prog, LayoutOf(prog).value.0) <==> RegionsHold(prog, LayoutOf(prog).value.0)
  {
    var st := LayoutOf(prog).value.0;
    if RegionsHold(prog, st) {
      var before := LoopAccepts(PassOf(prog), Stable(prog), INITIAL, 0);
      AgreeReproduces(prog, before, Pass(prog, before).value, st);
    }
    if Reproduces(prog, st) {
      RunTopFrame(prog.top, prog, SetRegions(prog.regions, prog, Reset(st)).value);
      forall c | RegionExtent(c)
        ensures At(SetRegions(prog.regions, prog, Reset(st)).value.store, c) == At(st.store, c)
      {
        TopLeavesRegions(prog.top, prog, c);
        assert At(Pass(prog, st).value.store, c) == At(st.store, c);
      }
    }
  }

  // ---- MEMORY blocks that read only earlier regions

  ghost function RegionView(prog: Program): View {
    View(prog, (c: Cell) => true, (c: Cell) => Carried(c) && !RegionExtent(c))
  }

  /** No ORIGIN or LENGTH of a region is used before it is set. */
  ghost predicate RegionsInOrder(prog: Program) {
    CheckRegions(prog.regions, AT_RESET, RegionView(prog)).Some?
  }

  lemma {:induction false} RegionsSucceed(rs: seq<Region>, f: Flow, prog: Program, a: State, b: State)
    requires Agree(f, RegionView(prog), a, b) && CheckRegions(rs, f, RegionView(prog)).Some?
    requires SetRegions(rs, prog, a).Some?
    ensures SetRegions(rs, prog, b).Some?
  {
    if rs != [] {
      var r, v := rs[0], RegionView(prog);
      EvalAgrees(r.origin, f, v, a, b);
      var org := Eval(r.origin, prog, a).value;
      WriteAgrees(Org(r.name), org, org, f, v, a, b);
      EvalAgrees(r.length, Wrote(Org(r.name), f), v, Write(Org(r.name), org, a), Write(Org(r.name), org, b));
      RegionAgrees(r, f, v, a, b);
      RegionsSucceed(rs[1..], CheckRegion(r, f, v).value, prog,
                     SetRegion(r, prog, a).value, SetRegion(r, prog, b).value);
    }
  }

  lemma ResetAgrees(prog: Program, before: State, after: State, st: State)
    requires WellFormed(prog) && Remembered(before)
    requires Pass(prog, before) == Some(after) && Unchanged(prog, after) && st == Remember(after)
    ensures Agree(AT_RESET, RegionView(prog), Reset(before), Reset(st))
  {
    PassFrame(prog, before);
    forall c | Shared(c, AT_RESET, RegionView(prog))
      ensures Value(c, Reset(before)) == Value(c, Reset(st))
    {
      assert c in PassCells(prog) ==> Observed(c, prog);
    }
  }

  lemma InOrderRegionsHold(prog: Program, before: State, after: State, st: State)
    requires WellFormed(prog) && RegionsInOrder(prog) && Remembered(before)
    requires Pass(prog, before) == Some(after) && Unchanged(prog, after) && st == Remember(after)
    ensures RegionsHold(prog, st)
  {
    var rs, v := prog.regions, RegionView(prog);
    ResetAgrees(prog, before, after, st);
    RegionsSucceed(rs, AT_RESET, prog, Reset(before), Reset(st));
    RegionsAgree(rs, AT_RESET, v, Reset(before), Reset(st));
    CheckRegionsWrite(rs, AT_RESET, v);
    var a, b := SetRegions(rs, prog, Reset(before)).value, SetRegions(rs, prog, Reset(st)).value;
    SetRegionsFrame(rs, prog, Reset(st));
    RunTopFrame(prog.top, prog, a);
    var f := CheckRegions(rs, AT_RESET, v).value;
    forall c | RegionExtent(c)
      ensures At(b.store, c) == At(st.store, c)
    {
      TopLeavesRegions(prog.top, prog, c);
      if c in RegionCells(rs) {
        assert Shared(c, f, v);
        assert Value(c, a) == Value(c, b);
      }
    }
  }

  /** With the MEMORY block in order, every accepted layout is a fixpoint. */
  lemma InOrderIsFixpoint(prog: Program)
    requires WellFormed(prog) && RegionsInOrder(prog) && LayoutOf(prog).Some?
    ensures Reproduces(prog, LayoutOf(prog).value.0)
  {
    var before := LoopAccepts(PassOf(prog), Stable(prog), INITIAL, 0);
    InOrderRegionsHold(prog, before, Pass(prog, before).value, LayoutOf(prog).value.0);
    AcceptedIsFixpoint(prog);
  }
}
