/** Repeating passes: the loop of script_layout as a function, how many passes a
    script needs, and what an accepted layout satisfies. */
module Settling {
  import opened Prelude
  import opened ScriptSyntax
  import opened Layout
  import opened InformationFlow

  type Step = State -> Option<State>

  function PassOf(prog: Program): Step {
    st => Pass(prog, st)
  }

  ghost function Stable(prog: Program): State -> bool {
    st => Unchanged(prog, st)
  }

  /** n passes, each remembered. */
  function Passes(step: Step, st: State, n: nat): Option<State> {
    if n == 0 then Some(st)
    else
      var before :- Passes(step, st, n - 1);
      var after :- step(before);
      Some(Remember(after))
  }

  /** The layout loop after `done` passes: the accepted state and the number of
      the pass that accepted it. */
  ghost function LayoutLoop(step: Step, stable: State -> bool, st: State, done: nat): Option<(State, nat)>
    requires done < MAXPASSES
    decreases MAXPASSES - done
  {
    var after :- step(st);
    if done > 0 && stable(after) then Some((Remember(after), done + 1))
    else if done + 1 == MAXPASSES then None
    else LayoutLoop(step, stable, Remember(after), done + 1)
  }

  /** The layout of a program: the accepted state and pass. */
  ghost function LayoutOf(prog: Program): Option<(State, nat)> {
    LayoutLoop(PassOf(prog), Stable(prog), INITIAL, 0)
  }

  lemma {:induction false} PassesShift(step: Step, st: State, n: nat)
    requires Passes(step, st, n + 1).Some?
    ensures Passes(step, st, 1).Some?
    ensures Passes(step, Passes(step, st, 1).value, n) == Passes(step, st, n + 1)
  {
    if n > 0 {
      PassesShift(step, st, n - 1);
    }
  }

  lemma {:induction false} PassesPrefix(step: Step, st: State, m: nat, n: nat)
    requires n <= m && Passes(step, st, m).Some?
    ensures Passes(step, st, n).Some?
    decreases m - n
  {
    if n < m {
      PassesPrefix(step, st, m - 1, n);
    }
  }

  /** The loop stops no later than the first pass that changes nothing. */
  lemma {:induction false} LoopReaches(step: Step, stable: State -> bool, st: State, m: nat, done: nat)
    requires done < m <= MAXPASSES && 1 < m
    requires Passes(step, st, m).Some?
    requires stable(step(Passes(step, st, m - 1).value).value)
    ensures Passes(step, st, done).Some?
    ensures LayoutLoop(step, stable, Passes(step, st, done).value, done).Some?
    ensures LayoutLoop(step, stable, Passes(step, st, done).value, done).value.1 <= m
    decreases m - done
  {
    PassesPrefix(step, st, m, done);
    PassesPrefix(step, st, m, done + 1);
    if done + 1 < m {
      LoopReaches(step, stable, st, m, done + 1);
    }
  }

  // ---- what a pass does not write

  ghost predicate Frame(cells: set<Cell>, a: State, b: State) {
    b.prev == a.prev && forall c :: c !in cells ==> At(b.store, c) == At(a.store, c)
  }

  function CursorCell(region: Option<string>): set<Cell> {
    if region.Some? then {Cursor(region.value)} else {}
  }

  function TopCells(t: Top, prog: Program): set<Cell> {
    match t
    case TopSection(s) => SectionCells(s) + Written(s.body, prog)
    case TopAssign(kind, x, _) => AssignCells(kind, x, prog)
    case _ => {}
  }

  function AllTopCells(top: seq<Top>, prog: Program): set<Cell> {
    if top == [] then {} else TopCells(top[0], prog) + AllTopCells(top[1..], prog)
  }

  function RegionCells(rs: seq<Region>): set<Cell> {
    if rs == [] then {} else {Org(rs[0].name), Len(rs[0].name), Cursor(rs[0].name)} + RegionCells(rs[1..])
  }

  /** Every cell that a pass writes. */
  function PassCells(prog: Program): set<Cell> {
    RegionCells(prog.regions) + AllTopCells(prog.top, prog)
  }

  function SectionCells(s: Section): set<Cell> {
    {Vma(s.name), Lma(s.name), Size(s.name)} + CursorCell(s.region) + CursorCell(s.lmaRegion)
  }

  lemma SectionFrame(s: Section, prog: Program, a: State)
    requires LayoutSection(s, prog, a).Some?
    ensures Frame(SectionCells(s) + Written(s.body, prog), a, LayoutSection(s, prog, a).value)
  {
    var (begun, sub) := OpenSection(s, prog, a).value;
    var walked := Walk(s.body, sub, prog, begun).value;
    OpenFrame(s, prog, a);
    WalkOnly(s.body, sub, prog, begun);
    assert Frame(Written(s.body, prog), begun, walked);
    CloseFrame(s, walked);
  }

  lemma OpenFrame(s: Section, prog: Program, a: State)
    requires OpenSection(s, prog, a).Some?
    ensures Frame(SectionCells(s), a, OpenSection(s, prog, a).value.0)
  {
  }

  lemma CloseFrame(s: Section, a: State)
    ensures Frame(SectionCells(s), a, CloseSection(s, a))
  {
  }

  lemma ExecTopFrame(t: Top, prog: Program, a: State)
    requires ExecTop(t, prog, a).Some?
    ensures Frame(TopCells(t, prog), a, ExecTop(t, prog, a).value)
  {
    if t.TopSection? {
      SectionFrame(t.sect, prog, a);
    }
  }

  lemma {:induction false} RunTopFrame(top: seq<Top>, prog: Program, a: State)
    requires RunTop(top, prog, a).Some?
    ensures Frame(AllTopCells(top, prog), a, RunTop(top, prog, a).value)
  {
    if top != [] {
      ExecTopFrame(top[0], prog, a);
      RunTopFrame(top[1..], prog, ExecTop(top[0], prog, a).value);
    }
  }

  lemma {:induction false} SetRegionsFrame(rs: seq<Region>, prog: Program, a: State)
    requires SetRegions(rs, prog, a).Some?
    ensures Frame(RegionCells(rs), a, SetRegions(rs, prog, a).value)
  {
    if rs != [] {
      SetRegionsFrame(rs[1..], prog, SetRegion(rs[0], prog, a).value);
    }
  }

  lemma {:induction false} SetRegionsScalars(rs: seq<Region>, prog: Program, a: State)
    requires SetRegions(rs, prog, a).Some?
    ensures SetRegions(rs, prog, a).value == a.(store := SetRegions(rs, prog, a).value.store)
  {
    if rs != [] {
      SetRegionsScalars(rs[1..], prog, SetRegion(rs[0], prog, a).value);
    }
  }

  lemma PassFrame(prog: Program, a: State)
    requires Pass(prog, a).Some?
    ensures Frame(PassCells(prog), a, Pass(prog, a).value)
  {
    SetRegionsFrame(prog.regions, prog, Reset(a));
    RunTopFrame(prog.top, prog, SetRegions(prog.regions, prog, Reset(a)).value);
  }

  // ---- what the static check says is written

  lemma CheckCloseWrites(s: Section, f: Flow, v: View)
    requires CheckClose(s, f, v).Some?
    ensures CheckClose(s, f, v).value.wrote == f.wrote + {Size(s.name)} + CursorCell(s.region) + CursorCell(s.lmaRegion)
  {
  }

  lemma CheckSectionWrites(s: Section, f: Flow, v: View)
    requires CheckSection(s, f, v).Some?
    ensures CheckSection(s, f, v).value.wrote == f.wrote + TopCells(TopSection(s), v.prog)
  {
    var begun := CheckOpen(s, f, v).value;
    var subLow := LowSub(s, f.(cur := Some(s.name)), v);
    assert begun.wrote == f.wrote + {Vma(s.name), Lma(s.name)};
    CheckWalkWrites(s.body, subLow, begun, v);
    CheckCloseWrites(s, CheckWalk(s.body, subLow, begun, v).value, v);
  }

  lemma {:induction false} CheckTopWrites(top: seq<Top>, f: Flow, v: View)
    requires CheckTop(top, f, v).Some?
    ensures CheckTop(top, f, v).value.wrote == f.wrote + AllTopCells(top, v.prog)
  {
    if top != [] {
      if top[0].TopSection? {
        CheckSectionWrites(top[0].sect, f, v);
      }
      CheckTopWrites(top[1..], CheckExecTop(top[0], f, v).value, v);
    }
  }

  lemma {:induction false} CheckRegionsWrite(rs: seq<Region>, f: Flow, v: View)
    requires CheckRegions(rs, f, v).Some?
    ensures CheckRegions(rs, f, v).value.wrote == f.wrote + RegionCells(rs)
  {
    if rs != [] {
      CheckRegionsWrite(rs[1..], CheckRegion(rs[0], f, v).value, v);
    }
  }

  lemma CheckPassWrites(v: View)
    requires CheckPass(v).Some?
    ensures CheckPass(v).value.wrote == PassCells(v.prog)
  {
    CheckRegionsWrite(v.prog.regions, AT_RESET, v);
    CheckTopWrites(v.prog.top, CheckRegions(v.prog.regions, AT_RESET, v).value, v);
  }

  // ---- forward references of bounded depth

  /** Each cell has a level.  Seen at level n, a pass may use this pass's cells of
      level n or less, and the pass before's of level less than n. */
  ghost function ViewAt(prog: Program, level: Cell -> nat, n: nat): View {
    View(prog, (c: Cell) => level(c) <= n, (c: Cell) => level(c) < n || c !in PassCells(prog))
  }

  /** Forward references form chains of depth k at most: a use of a value from the
      pass before is one level up from the value used. */
  ghost predicate Leveled(prog: Program, level: Cell -> nat, k: nat) {
    && (forall n | 0 <= n <= k :: CheckPass(ViewAt(prog, level, n)).Some?)
    && (forall c :: Observed(c, prog) ==> level(c) <= k)
  }

  /** Every use is of a value that this pass has already set. */
  ghost predicate NoForwardReferences(prog: Program) {
    CheckPass(ViewAt(prog, Ground, 0)).Some?
  }

  function Ground(c: Cell): nat {
    0
  }

  /** The states between passes: nothing has changed since they were remembered. */
  predicate Remembered(st: State) {
    st.prev == st.store
  }

  ghost predicate SameBelow(prog: Program, level: Cell -> nat, n: nat, a: State, b: State) {
    forall c :: level(c) < n || c !in PassCells(prog) ==> At(a.store, c) == At(b.store, c)
  }

  /** One pass settles one more level. */
  lemma LevelStep(prog: Program, level: Cell -> nat, n: nat, a: State, b: State)
    requires CheckPass(ViewAt(prog, level, n)).Some?
    requires Remembered(a) && Remembered(b) && SameBelow(prog, level, n, a, b)
    requires Pass(prog, a).Some? && Pass(prog, b).Some?
    ensures SameBelow(prog, level, n + 1, Pass(prog, a).value, Pass(prog, b).value)
  {
    var v := ViewAt(prog, level, n);
    assert SameBefore(v, a, b);
    PassAgrees(v, a, b);
    CheckPassWrites(v);
    PassFrame(prog, a);
    PassFrame(prog, b);
    SameBelowNext(prog, level, n, CheckPass(v).value, a, b, Pass(prog, a).value, Pass(prog, b).value);
  }

  lemma SameBelowNext(prog: Program, level: Cell -> nat, n: nat, f: Flow, a: State, b: State, a': State, b': State)
    requires Agree(f, ViewAt(prog, level, n), a', b') && f.wrote == PassCells(prog)
    requires SameBelow(prog, level, n, a, b)
    requires Frame(PassCells(prog), a, a') && Frame(PassCells(prog), b, b')
    ensures SameBelow(prog, level, n + 1, a', b')
  {
    forall c | level(c) < n + 1 || c !in PassCells(prog)
      ensures At(a'.store, c) == At(b'.store, c)
    {
      if c in PassCells(prog) {
        assert Shared(c, f, ViewAt(prog, level, n));
        assert Value(c, a') == Value(c, b');
      }
    }
  }

  /** A step that settles one more level, up to level k. */
  ghost predicate Settling(step: Step, prog: Program, level: Cell -> nat, k: nat) {
    forall n: nat, a: State, b: State | n <= k && Remembered(a) && Remembered(b) && SameBelow(prog, level, n, a, b)
                                        && step(a).Some? && step(b).Some? ::
      SameBelow(prog, level, n + 1, step(a).value, step(b).value)
  }

  lemma PassSettles(prog: Program, level: Cell -> nat, k: nat)
    requires Leveled(prog, level, k)
    ensures Settling(PassOf(prog), prog, level, k)
  {
    forall n: nat, a: State, b: State | n <= k && Remembered(a) && Remembered(b) && SameBelow(prog, level, n, a, b)
                                        && PassOf(prog)(a).Some? && PassOf(prog)(b).Some?
      ensures SameBelow(prog, level, n + 1, PassOf(prog)(a).value, PassOf(prog)(b).value)
    {
      LevelStep(prog, level, n, a, b);
    }
  }

  /** After n passes, cells of level below n no longer depend on where the passes
      started. */
  lemma {:induction false} LevelsAgree(step: Step, prog: Program, level: Cell -> nat, k: nat, n: nat, a: State, b: State)
    requires Settling(step, prog, level, k) && n <= k + 1
    requires Remembered(a) && Remembered(b) && SameBelow(prog, level, 0, a, b)
    requires Passes(step, a, n).Some? && Passes(step, b, n).Some?
    ensures Remembered(Passes(step, a, n).value) && Remembered(Passes(step, b, n).value)
    ensures SameBelow(prog, level, n, Passes(step, a, n).value, Passes(step, b, n).value)
  {
    if n > 0 {
      LevelsAgree(step, prog, level, k, n - 1, a, b);
      var a1, b1 := Passes(step, a, n - 1).value, Passes(step, b, n - 1).value;
      assert SameBelow(prog, level, n, step(a1).value, step(b1).value);
      SameStore(prog, level, n, step(a1).value, step(b1).value, Passes(step, a, n).value, Passes(step, b, n).value);
    }
  }

  lemma SameStore(prog: Program, level: Cell -> nat, n: nat, a: State, b: State, a': State, b': State)
    requires SameBelow(prog, level, n, a, b) && a'.store == a.store && b'.store == b.store
    ensures SameBelow(prog, level, n, a', b')
  {
  }

  /** A script whose forward references have depth k changes nothing in pass k + 2. */
  lemma UnchangedAtDepth(prog: Program, level: Cell -> nat, k: nat)
    requires Leveled(prog, level, k) && Passes(PassOf(prog), INITIAL, k + 2).Some?
    ensures Passes(PassOf(prog), INITIAL, k + 1).Some?
    ensures Stable(prog)(PassOf(prog)(Passes(PassOf(prog), INITIAL, k + 1).value).value)
  {
    var step := PassOf(prog);
    PassesShift(step, INITIAL, k + 1);
    PassesPrefix(step, INITIAL, k + 2, k + 1);
    PassFrame(prog, INITIAL);
    PassSettles(prog, level, k);
    LevelsAgree(step, prog, level, k, k + 1, INITIAL, Passes(step, INITIAL, 1).value);
    PassFrame(prog, Passes(step, INITIAL, k + 1).value);
  }

  /** Settling: a script with forward references of depth k, none of whose first
      k + 2 passes is an error, is accepted at pass k + 2 or before. */
  lemma SettlesByDepth(prog: Program, level: Cell -> nat, k: nat)
    requires Leveled(prog, level, k) && k + 2 <= MAXPASSES
    requires Passes(PassOf(prog), INITIAL, k + 2).Some?
    ensures LayoutOf(prog).Some?
    ensures LayoutOf(prog).value.1 <= k + 2
  {
    UnchangedAtDepth(prog, level, k);
    LoopReaches(PassOf(prog), Stable(prog), INITIAL, k + 2, 0);
  }

  lemma LoopStopsAtTwo(step: Step, stable: State -> bool, st: State)
    requires Passes(step, st, 2).Some? && Passes(step, st, 1).Some?
    requires stable(step(Passes(step, st, 1).value).value)
    ensures LayoutLoop(step, stable, st, 0) == Some((Passes(step, st, 2).value, 2))
  {
    assert Passes(step, st, 0).Some?;
    assert LayoutLoop(step, stable, st, 0) == LayoutLoop(step, stable, Passes(step, st, 1).value, 1);
  }

  lemma GroundLevel(prog: Program)
    requires NoForwardReferences(prog)
    ensures Leveled(prog, Ground, 0)
  {
    forall n: nat | n <= 0
      ensures CheckPass(ViewAt(prog, Ground, n)).Some?
    {
      assert n == 0;
    }
  }

  /** Without forward references, every link that is not an error is accepted at
      pass 2 exactly. */
  lemma SettlesAtTwo(prog: Program)
    requires NoForwardReferences(prog) && Passes(PassOf(prog), INITIAL, 2).Some?
    ensures LayoutOf(prog) == Some((Passes(PassOf(prog), INITIAL, 2).value, 2))
  {
    GroundLevel(prog);
    UnchangedAtDepth(prog, Ground, 0);
    LoopStopsAtTwo(PassOf(prog), Stable(prog), INITIAL);
  }
}
