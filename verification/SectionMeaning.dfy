/** Where an accepted layout puts its sections: at the address that the script gives, aligned, or
    behind what its memory region already holds. */
module SectionMeaning {
  import opened Prelude
  import opened ScriptSyntax
  import opened Layout
  import opened InformationFlow
  import opened Settling
  import opened Fixpoint
  import opened Occupancy
  import opened Disjointness
  import opened ScriptMeaning

  // ---- sections that stay as they are

  /** The section and its contents are the same in both states; data and gaps that are new belong to
      other sections. */
  ghost predicate SameSection(s: Section, a: State, b: State) {
    && SectVma(s, b) == SectVma(s, a) && SectLma(s, b) == SectLma(s, a) && SectSize(s, b) == SectSize(s, a)
    && (forall p <- PiecesOf(s.body) :: Lo(p, b) == Lo(p, a) && At(b.store, PiecePad(p)) == At(a.store, PiecePad(p))
                                        && At(b.store, PieceFill(p)) == At(a.store, PieceFill(p)))
    && a.extras <= b.extras
    && (forall k | |a.extras| <= k < |b.extras| :: b.extras[k].sect != Some(s.name))
  }

  lemma {:induction false} WrittenFill(s: Stmt, prog: Program, p: nat)
    requires PieceFill(p) in Written(s, prog)
    ensures p in PiecesOf(s)
    decreases s
  {
    if PieceFill(p) in Written(s.next, prog) {
      WrittenFill(s.next, prog, p);
    } else if s.OnePage? {
      WrittenFill(s.body, prog, p);
    } else {
      FillCells(s.pieces, p);
    }
  }

  lemma {:induction false} FillCells(ps: seq<nat>, p: nat)
    ensures PieceFill(p) in PieceCells(ps) ==> p in ps
  {
    if ps != [] {
      FillCells(ps[1..], p);
    }
  }

  lemma OtherPieceKept(p: nat, t: Stmt, prog: Program)
    requires p !in PiecesOf(t)
    ensures PieceVma(p) !in Written(t, prog) && PiecePad(p) !in Written(t, prog) && PieceFill(p) !in Written(t, prog)
  {
    if PieceVma(p) in Written(t, prog) || PiecePad(p) in Written(t, prog) {
      WrittenMember(t, prog, p);
    }
    if PieceFill(p) in Written(t, prog) {
      WrittenFill(t, prog, p);
    }
  }

  lemma SectionCellsKept(s: Section, t: Section, prog: Program, a: State)
    requires LayoutSection(t, prog, a).Some? && s.name != t.name
    ensures SectVma(s, LayoutSection(t, prog, a).value) == SectVma(s, a)
    ensures SectLma(s, LayoutSection(t, prog, a).value) == SectLma(s, a)
    ensures SectSize(s, LayoutSection(t, prog, a).value) == SectSize(s, a)
  {
    SectionFrame(t, prog, a);
    BodyLeavesSection(t.body, prog, Vma(s.name));
    BodyLeavesSection(t.body, prog, Lma(s.name));
    BodyLeavesSection(t.body, prog, Size(s.name));
  }

  lemma PieceCellsKept(p: nat, t: Section, prog: Program, a: State)
    requires LayoutSection(t, prog, a).Some? && p !in PiecesOf(t.body)
    ensures Lo(p, LayoutSection(t, prog, a).value) == Lo(p, a)
    ensures At(LayoutSection(t, prog, a).value.store, PiecePad(p)) == At(a.store, PiecePad(p))
    ensures At(LayoutSection(t, prog, a).value.store, PieceFill(p)) == At(a.store, PieceFill(p))
  {
    SectionFrame(t, prog, a);
    OtherPieceKept(p, t.body, prog);
  }

  /** Laying out section t leaves section s alone. */
  lemma OtherSectionKept(s: Section, t: Section, prog: Program, a: State)
    requires LayoutSection(t, prog, a).Some? && s.name != t.name && Distinct(PiecesOf(t.body))
    requires forall p <- PiecesOf(s.body) :: p !in PiecesOf(t.body)
    requires forall k | 0 <= k < |a.extras| :: a.extras[k].sect != Some(t.name)
    ensures SameSection(s, a, LayoutSection(t, prog, a).value)
  {
    SectionCellsKept(s, t, prog, a);
    forall p <- PiecesOf(s.body)
      ensures Lo(p, LayoutSection(t, prog, a).value) == Lo(p, a)
      ensures At(LayoutSection(t, prog, a).value.store, PiecePad(p)) == At(a.store, PiecePad(p))
      ensures At(LayoutSection(t, prog, a).value.store, PieceFill(p)) == At(a.store, PieceFill(p))
    {
      PieceCellsKept(p, t, prog, a);
    }
    OneSectionLaid(t, prog, a);
  }

  lemma OtherTopKept(s: Section, t: Top, prog: Program, a: State)
    requires !t.TopSection? && ExecTop(t, prog, a).Some?
    ensures SameSection(s, a, ExecTop(t, prog, a).value)
  {
    ExecTopFrame(t, prog, a);
  }

  lemma SameSectionChains(s: Section, a: State, b: State, c: State)
    requires SameSection(s, a, b) && SameSection(s, b, c)
    ensures SameSection(s, a, c)
  {
  }

  // ---- memory regions

  function Latest(a: int, b: int): int {
    if a < b then b else a
  }

  /** The first free address of a region after a section that ends there. */
  function Taken(region: Option<string>, name: string, end: int, before: int): int {
    if region == Some(name) then Latest(before, end) else before
  }

  /** The first free address of a region after these sections: behind all that are placed in it, or
      loaded from it. */
  ghost function RegionEnd(name: string, done: seq<Section>, st: State): int {
    if done == [] then At(st.store, Org(name))
    else
      var s := done[|done| - 1];
      Taken(s.lmaRegion, name, SectLma(s, st) + SectSize(s, st),
            Taken(s.region, name, SectEnd(s, st), RegionEnd(name, done[..|done| - 1], st)))
  }

  lemma {:induction false} RegionEndSame(name: string, done: seq<Section>, a: State, b: State)
    requires forall s <- done :: SameSection(s, a, b)
    requires At(b.store, Org(name)) == At(a.store, Org(name))
    ensures RegionEnd(name, done, b) == RegionEnd(name, done, a)
    decreases |done|
  {
    if done != [] {
      assert done[|done| - 1] in done;
      RegionEndSame(name, done[..|done| - 1], a, b);
    }
  }

  /** The cursor of every region stands at its first free address. */
  ghost predicate CursorsStand(done: seq<Section>, prog: Program, st: State) {
    forall name | prog.HasRegion(name) :: At(st.store, Cursor(name)) == RegionEnd(name, done, st)
  }

  lemma AdvanceTakes(region: Option<string>, end: int, st: State, name: string)
    ensures At(Advance(region, end, st).store, Cursor(name)) == Taken(region, name, end, At(st.store, Cursor(name)))
    ensures forall c: Cell :: !c.Cursor? ==> At(Advance(region, end, st).store, c) == At(st.store, c)
  {
  }

  lemma CloseTakes(s: Section, a: State, name: string)
    ensures SectSize(s, CloseSection(s, a)) == a.dot - SectVma(s, a)
    ensures SectVma(s, CloseSection(s, a)) == SectVma(s, a) && SectLma(s, CloseSection(s, a)) == SectLma(s, a)
    ensures At(CloseSection(s, a).store, Cursor(name))
         == Taken(s.lmaRegion, name, SectLma(s, a) + (a.dot - SectVma(s, a)),
                  Taken(s.region, name, a.dot, At(a.store, Cursor(name))))
  {
    var sized := Write(Size(s.name), a.dot - SectVma(s, a), a);
    AdvanceTakes(s.region, a.dot, sized, name);
    AdvanceTakes(s.lmaRegion, SectLma(s, a) + (a.dot - SectVma(s, a)), Advance(s.region, a.dot, sized), name);
  }

  lemma CursorAfter(name: string, s: Section, prog: Program, a: State)
    requires LayoutSection(s, prog, a).Some?
    ensures At(LayoutSection(s, prog, a).value.store, Cursor(name))
         == Taken(s.lmaRegion, name, SectLma(s, LayoutSection(s, prog, a).value) + SectSize(s, LayoutSection(s, prog, a).value),
                  Taken(s.region, name, SectEnd(s, LayoutSection(s, prog, a).value), At(a.store, Cursor(name))))
  {
    var (begun, sub) := OpenSection(s, prog, a).value;
    var walked := Walk(s.body, sub, prog, begun).value;
    WalkOnly(s.body, sub, prog, begun);
    BodyLeavesCursor(s.body, prog, name);
    OpenFrame(s, prog, a);
    OpenLeavesCursor(s, prog, a, name);
    CloseTakes(s, walked, name);
  }

  lemma OpenLeavesCursor(s: Section, prog: Program, a: State, name: string)
    requires OpenSection(s, prog, a).Some?
    ensures At(OpenSection(s, prog, a).value.0.store, Cursor(name)) == At(a.store, Cursor(name))
  {
  }

  lemma {:induction false} BodyLeavesCursor(s: Stmt, prog: Program, name: string)
    ensures Cursor(name) !in Written(s, prog) && Org(name) !in Written(s, prog)
    decreases s
  {
    if !s.End? {
      BodyLeavesCursor(s.next, prog, name);
      if s.OnePage? {
        BodyLeavesCursor(s.body, prog, name);
      } else if s.Input? {
        PieceCellsKind(s.pieces, Cursor(name));
        PieceCellsKind(s.pieces, Org(name));
      }
    }
  }

  lemma CursorsMove(done: seq<Section>, t: Section, prog: Program, a: State)
    requires CursorsStand(done, prog, a) && LayoutSection(t, prog, a).Some?
    requires forall s <- done :: SameSection(s, a, LayoutSection(t, prog, a).value)
    ensures CursorsStand(done + [t], prog, LayoutSection(t, prog, a).value)
  {
    var b := LayoutSection(t, prog, a).value;
    assert (done + [t])[..|done|] == done;
    forall name | prog.HasRegion(name)
      ensures At(b.store, Cursor(name)) == RegionEnd(name, done + [t], b)
    {
      CursorAfter(name, t, prog, a);
      SectionFrame(t, prog, a);
      BodyLeavesCursor(t.body, prog, name);
      RegionEndSame(name, done, a, b);
    }
  }

  lemma OtherTopStands(done: seq<Section>, t: Top, prog: Program, a: State)
    requires CursorsStand(done, prog, a) && !t.TopSection? && ExecTop(t, prog, a).Some?
    ensures CursorsStand(done, prog, ExecTop(t, prog, a).value)
  {
    var b := ExecTop(t, prog, a).value;
    ExecTopFrame(t, prog, a);
    forall s <- done
      ensures SameSection(s, a, b)
    {
      OtherTopKept(s, t, prog, a);
    }
    forall name | prog.HasRegion(name)
      ensures At(b.store, Cursor(name)) == RegionEnd(name, done, b)
    {
      RegionEndSame(name, done, a, b);
    }
  }

  // ---- a section in a pass

  /** The section was laid out in state `here`, when the sections of `done` were, and still is as it was then. */
  ghost predicate LaidFrom(s: Section, done: seq<Section>, prog: Program, here: State, st: State) {
    && LayoutSection(s, prog, here).Some? && SameSection(s, LayoutSection(s, prog, here).value, st)
    && Laid(done, prog, here) && CursorsStand(done, prog, here)
    && (forall t <- done :: SameSection(t, here, st))
    && (forall name :: At(st.store, Org(name)) == At(here.store, Org(name)) && At(st.store, Len(name)) == At(here.store, Len(name)))
    && here.extras <= st.extras
  }

  /** The rest of the script leaves a section that is done alone. */
  lemma {:induction false} RestKeeps(s: Section, done: seq<Section>, top: seq<Top>, prog: Program, a: State)
    requires Laid(done, prog, a) && RunTop(top, prog, a).Some? && Placeable(done + SectionsOf(top)) && s in done
    ensures SameSection(s, a, RunTop(top, prog, a).value)
    decreases top
  {
    if top != [] {
      var b := ExecTop(top[0], prog, a).value;
      if top[0].TopSection? {
        var t, rest := top[0].sect, SectionsOf(top[1..]);
        assert done + SectionsOf(top) == done + [t] + rest;
        NextPlaceable(done, t, rest);
        SectionLays(done, t, prog, a);
        assert s.name in Names(done);
        OtherSectionKept(s, t, prog, a);
        RestKeeps(s, done + [t], top[1..], prog, b);
      } else {
        OtherTopKeeps(done, top[0], prog, a);
        OtherTopKept(s, top[0], prog, a);
        assert SectionsOf(top) == SectionsOf(top[1..]);
        RestKeeps(s, done, top[1..], prog, b);
      }
      SameSectionChains(s, a, b, RunTop(top, prog, a).value);
    }
  }

  lemma TopKeepsRegions(top: seq<Top>, prog: Program, a: State)
    requires RunTop(top, prog, a).Some?
    ensures forall name :: At(RunTop(top, prog, a).value.store, Org(name)) == At(a.store, Org(name))
    ensures forall name :: At(RunTop(top, prog, a).value.store, Len(name)) == At(a.store, Len(name))
  {
    RunTopFrame(top, prog, a);
    forall name
      ensures At(RunTop(top, prog, a).value.store, Org(name)) == At(a.store, Org(name))
      ensures At(RunTop(top, prog, a).value.store, Len(name)) == At(a.store, Len(name))
    {
      TopLeavesRegions(top, prog, Org(name));
      TopLeavesRegions(top, prog, Len(name));
    }
  }

  /** The next section of the script, seen from the end of the pass. */
  lemma NextIsLaidFrom(done: seq<Section>, top: seq<Top>, prog: Program, a: State)
    requires Laid(done, prog, a) && CursorsStand(done, prog, a) && RunTop(top, prog, a).Some?
    requires top != [] && top[0].TopSection? && Placeable(done + SectionsOf(top))
    ensures LaidFrom(top[0].sect, done, prog, a, RunTop(top, prog, a).value)
    ensures Laid(done + [top[0].sect], prog, ExecTop(top[0], prog, a).value)
    ensures CursorsStand(done + [top[0].sect], prog, ExecTop(top[0], prog, a).value)
    ensures Placeable(done + [top[0].sect] + SectionsOf(top[1..]))
  {
    var t, b, st := top[0].sect, ExecTop(top[0], prog, a).value, RunTop(top, prog, a).value;
    assert done + SectionsOf(top) == done + [t] + SectionsOf(top[1..]);
    NextPlaceable(done, t, SectionsOf(top[1..]));
    SectionLays(done, t, prog, a);
    OneSectionLaid(t, prog, a);
    forall s <- done
      ensures SameSection(s, a, b) && SameSection(s, a, st)
    {
      assert s.name in Names(done);
      OtherSectionKept(s, t, prog, a);
      RestKeeps(s, done + [t], top[1..], prog, b);
      SameSectionChains(s, a, b, st);
    }
    CursorsMove(done, t, prog, a);
    RestKeeps(t, done + [t], top[1..], prog, b);
    TopKeepsRegions(top, prog, a);
  }

  /** The state from which section i was laid out. */
  lemma {:induction false} TopFinds(done: seq<Section>, top: seq<Top>, prog: Program, a: State, i: nat) returns (here: State)
    requires Laid(done, prog, a) && CursorsStand(done, prog, a) && RunTop(top, prog, a).Some?
    requires Placeable(done + SectionsOf(top)) && |done| <= i < |done + SectionsOf(top)|
    ensures LaidFrom((done + SectionsOf(top))[i], (done + SectionsOf(top))[..i], prog, here, RunTop(top, prog, a).value)
    decreases top
  {
    var b := ExecTop(top[0], prog, a).value;
    if top[0].TopSection? {
      var t, rest := top[0].sect, SectionsOf(top[1..]);
      assert done + SectionsOf(top) == done + [t] + rest;
      NextIsLaidFrom(done, top, prog, a);
      if i == |done| {
        here := a;
        assert (done + SectionsOf(top))[..i] == done;
      } else {
        here := TopFinds(done + [t], top[1..], prog, b, i);
      }
    } else {
      OtherTopKeeps(done, top[0], prog, a);
      OtherTopStands(done, top[0], prog, a);
      assert SectionsOf(top) == SectionsOf(top[1..]);
      here := TopFinds(done, top[1..], prog, b, i);
    }
  }

  lemma {:induction false} DeclaredRegion(rs: seq<Region>, name: string)
    requires exists r <- rs :: r.name == name
    ensures Cursor(name) in RegionCells(rs)
  {
    if rs[0].name != name {
      DeclaredRegion(rs[1..], name);
    }
  }

  /** Before SECTIONS the cursor of every region is at its origin. */
  lemma PassIsReady(prog: Program, a: State) returns (ready: State)
    requires Pass(prog, a).Some?
    ensures Pass(prog, a) == RunTop(prog.top, prog, ready) && ready.dot == 0
    ensures Laid([], prog, ready) && CursorsStand([], prog, ready) && [] + SectionsOf(prog.top) == SectionsOf(prog.top)
  {
    ready := SetRegions(prog.regions, prog, Reset(a)).value;
    SetRegionsScalars(prog.regions, prog, Reset(a));
    forall name | prog.HasRegion(name)
      ensures At(ready.store, Cursor(name)) == RegionEnd(name, [], ready)
    {
      DeclaredRegion(prog.regions, name);
      CursorsStart(prog.regions, prog, Reset(a), name);
    }
  }

  /** In a pass, section i is laid out when the cursors stand behind the sections before it. */
  lemma PassFinds(prog: Program, a: State, i: nat) returns (here: State)
    requires Pass(prog, a).Some? && Placeable(SectionsOf(prog.top)) && i < |SectionsOf(prog.top)|
    ensures LaidFrom(SectionsOf(prog.top)[i], SectionsOf(prog.top)[..i], prog, here, Pass(prog, a).value)
  {
    var ready := PassIsReady(prog, a);
    here := TopFinds([], prog.top, prog, ready, i);
  }

  /** The accepted layout. */
  ghost function Accepted(prog: Program): State
    requires LayoutOf(prog).Some?
  {
    LayoutOf(prog).value.0
  }

  lemma LayoutFinds(prog: Program, i: nat) returns (here: State)
    requires LayoutOf(prog).Some? && Placeable(SectionsOf(prog.top)) && i < |SectionsOf(prog.top)|
    ensures LaidFrom(SectionsOf(prog.top)[i], SectionsOf(prog.top)[..i], prog, here, Accepted(prog))
  {
    var before := LoopAccepts(PassOf(prog), Stable(prog), INITIAL, 0);
    here := PassFinds(prog, before, i);
  }

  // ---- addresses

  /** The address that the script gives a section: -T or -D, an expression, its region, or the place
      where the script is. */
  ghost predicate IsGiven(s: Section, prog: Program, here: State, v: int) {
    if s.name in prog.base then v == prog.base[s.name]
    else if s.addr.Some? then Evaluates(s.addr.value, prog, here, v)
    else if s.region.Some? then v == At(here.store, Cursor(s.region.value))
    else v == here.dot
  }

  /** The section starts at the address it is given, or at the next multiple of its alignment. */
  ghost predicate StartsAt(s: Section, prog: Program, here: State, v: int) {
    exists given ::
      IsGiven(s, prog, here, given)
      && (if s.align.None? then v == given
          else exists n :: Evaluates(s.align.value, prog, here, n) && Aligns(given, n, v))
  }

  lemma OpenStarts(s: Section, prog: Program, a: State)
    requires OpenSection(s, prog, a).Some?
    ensures StartsAt(s, prog, a.(cur := Some(s.name)), OpenSection(s, prog, a).value.0.dot)
    ensures SectVma(s, OpenSection(s, prog, a).value.0) == OpenSection(s, prog, a).value.0.dot
  {
    var here := a.(cur := Some(s.name));
    var start := Start(s, prog, here).value;
    if s.addr.Some? {
      Valued(s.addr.value, prog, here);
    }
    var given := if s.name in prog.base then prog.base[s.name]
                 else if s.addr.Some? then Eval(s.addr.value, prog, here).value
                 else if s.region.Some? then At(here.store, Cursor(s.region.value)) else here.dot;
    assert IsGiven(s, prog, here, given);
    if s.align.Some? {
      Valued(s.align.value, prog, here);
      AlignUpAligns(given, Eval(s.align.value, prog, here).value, start);
    }
  }

  lemma BodyKeepsStart(s: Section, prog: Program, a: State)
    requires LayoutSection(s, prog, a).Some?
    ensures SectVma(s, LayoutSection(s, prog, a).value) == SectVma(s, OpenSection(s, prog, a).value.0)
    ensures SectLma(s, LayoutSection(s, prog, a).value) == SectLma(s, OpenSection(s, prog, a).value.0)
  {
    var (begun, sub) := OpenSection(s, prog, a).value;
    WalkOnly(s.body, sub, prog, begun);
    BodyLeavesSection(s.body, prog, Vma(s.name));
    BodyLeavesSection(s.body, prog, Lma(s.name));
    CloseTakes(s, Walk(s.body, sub, prog, begun).value, "");
  }

  /** Where a section of an accepted layout starts; `here` is what the linker knew when it came to it. */
  lemma SectionStarts(prog: Program, i: nat) returns (here: State)
    requires LayoutOf(prog).Some? && Placeable(SectionsOf(prog.top)) && i < |SectionsOf(prog.top)|
    ensures StartsAt(SectionsOf(prog.top)[i], prog, here, SectVma(SectionsOf(prog.top)[i], Accepted(prog)))
    ensures forall name | prog.HasRegion(name) ::
              At(here.store, Cursor(name)) == RegionEnd(name, SectionsOf(prog.top)[..i], Accepted(prog))
  {
    var s, done := SectionsOf(prog.top)[i], SectionsOf(prog.top)[..i];
    var before := LayoutFinds(prog, i);
    here := before.(cur := Some(s.name));
    OpenStarts(s, prog, before);
    BodyKeepsStart(s, prog, before);
    forall name | prog.HasRegion(name)
      ensures At(here.store, Cursor(name)) == RegionEnd(name, done, Accepted(prog))
    {
      RegionEndSame(name, done, before, Accepted(prog));
    }
  }

  /** A section with ALIGN starts at a multiple of its alignment, less than one alignment above the
      address that it was given. */
  lemma AlignedSection(prog: Program, i: nat) returns (here: State, given: int, n: int)
    requires LayoutOf(prog).Some? && Placeable(SectionsOf(prog.top)) && i < |SectionsOf(prog.top)|
    requires SectionsOf(prog.top)[i].align.Some?
    ensures IsGiven(SectionsOf(prog.top)[i], prog, here, given)
    ensures Evaluates(SectionsOf(prog.top)[i].align.value, prog, here, n)
    ensures IsPowerOfTwo(n) && given <= SectVma(SectionsOf(prog.top)[i], Accepted(prog)) < given + n
    ensures SectVma(SectionsOf(prog.top)[i], Accepted(prog)) % n == 0
  {
    var s := SectionsOf(prog.top)[i];
    here := SectionStarts(prog, i);
    var v := SectVma(s, Accepted(prog));
    given :| IsGiven(s, prog, here, given) && exists m :: Evaluates(s.align.value, prog, here, m) && Aligns(given, m, v);
    n :| Evaluates(s.align.value, prog, here, n) && Aligns(given, n, v);
  }

  /** Sections that only name their region follow one another: each starts behind what the region
      already holds, or at the region's origin; or at the next multiple of its alignment. */
  lemma RegionSection(prog: Program, i: nat, name: string, n: nat)
    requires LayoutOf(prog).Some? && Placeable(SectionsOf(prog.top)) && i < |SectionsOf(prog.top)|
    requires SectionsOf(prog.top)[i].region == Some(name) && prog.HasRegion(name)
    requires SectionsOf(prog.top)[i].name !in prog.base && SectionsOf(prog.top)[i].addr.None?
    ensures SectionsOf(prog.top)[i].align.None? ==>
              SectVma(SectionsOf(prog.top)[i], Accepted(prog)) == RegionEnd(name, SectionsOf(prog.top)[..i], Accepted(prog))
    ensures SectionsOf(prog.top)[i].align == Some(Num(n)) ==>
              Aligns(RegionEnd(name, SectionsOf(prog.top)[..i], Accepted(prog)), n, SectVma(SectionsOf(prog.top)[i], Accepted(prog)))
  {
    var here := SectionStarts(prog, i);
  }
}
