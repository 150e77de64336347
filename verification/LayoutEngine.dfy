/** The layout engine as ld/script.c runs it: global variables that the walk, the
    sections and the passes update in place.  Each method is proved to do what the
    pass function says. */
module LayoutEngine {
  import opened Prelude
  import opened ScriptSyntax
  import opened Layout
  import opened Settling
  import opened Disjointness

  ghost predicate Does(ok: bool, now: State, spec: Option<State>) {
    ok == spec.Some? && (ok ==> now == spec.value)
  }

  class Engine {
    const prog: Program
    var dot: int
    var fill: int
    var store: map<Cell, int>
    var prev: map<Cell, int>
    var bound: set<string>
    var cur: Option<string>
    var extras: seq<Extra>
    var failed: Option<string>

    function Now(): State
      reads this
    {
      State(dot, fill, store, prev, bound, cur, extras, failed)
    }

    constructor (prog: Program)
      ensures this.prog == prog && Now() == INITIAL
    {
      this.prog := prog;
      dot, fill, store, prev := 0, 0, map[], map[];
      bound, cur, extras, failed := {}, None, [], None;
    }

    method Set(c: Cell, v: int)
      modifies this
      ensures Now() == Write(c, v, old(Now()))
    {
      store := store[c := v];
    }

    method AssignTo(kind: AssignKind, x: string, e: Expr) returns (ok: bool)
      modifies this
      ensures Does(ok, Now(), AssignSymbol(kind, x, e, prog, old(Now())))
    {
      if kind == Provide && x in prog.symbols && (prog.symbols[x].plain || prog.symbols[x].moddef) {
        return true;
      }
      var v := Eval(e, prog, Now());
      if v.None? {
        return false;
      }
      Set(SymbolValue(x), v.value);
      bound := bound + {x};
      return true;
    }

    method FillGap(to: int)
      modifies this
      ensures Now() == Gap(to, old(Now()))
    {
      if to > dot && fill != 0 && cur.Some? {
        extras := extras + [Extra(cur, dot, to - dot, fill, false)];
      }
    }

    method PlaceAll(ps: seq<nat>, sub: pos)
      modifies this
      ensures Now() == PlacePieces(ps, sub, prog, old(Now()))
    {
      var i := 0;
      while i < |ps|
        invariant 0 <= i <= |ps|
        invariant PlacePieces(ps, sub, prog, old(Now())) == PlacePieces(ps[i..], sub, prog, Now())
      {
        var p := ps[i];
        var pad := PadFor(prog.PieceSize(p), sub);
        Set(PieceVma(p), dot);
        Set(PiecePad(p), pad);
        Set(PieceFill(p), fill);
        dot := dot + prog.PieceSize(p) + pad;
        assert ps[i..][1..] == ps[i + 1..];
        i := i + 1;
      }
    }

    /** One statement other than ONEPAGE. */
    method RunSimple(s: Stmt, sub: pos) returns (ok: bool)
      requires !s.End? && !s.OnePage?
      modifies this
      ensures Does(ok, Now(), Exec(s, sub, prog, old(Now())))
    {
      if s.Assign? {
        ok := AssignTo(s.kind, s.sym, s.e);
        return;
      }
      if s.Input? {
        PlaceAll(s.pieces, sub);
        return true;
      }
      var v := Eval(s.e, prog, Now());
      if v.None? {
        return false;
      }
      match s {
      case SetDot(_, _) =>
        if v.value < dot {
          return false;
        }
        FillGap(v.value);
        dot := v.value;
      case Data(width, _, _) =>
        if !FitsWidth(v.value, width) {
          return false;
        }
        extras := extras + [Extra(cur, dot, width, v.value, true)];
        dot := dot + width;
      case Fill(_, _) =>
        if v.value < -128 || v.value > 255 {
          return false;
        }
        fill := v.value % 256;
      case Assert(_, message, _) =>
        if v.value == 0 && failed.None? {
          failed := Some(message);
        }
      }
      return true;
    }

    method RunOnePage(body: Stmt, sub: pos, ghost next: Stmt) returns (ok: bool)
      modifies this
      ensures Does(ok, Now(), Exec(OnePage(body, next), sub, prog, old(Now())))
      decreases body, 1
    {
      var start, saveExtras, saveFill := dot, extras, fill;
      ok := RunWalk(body, sub);
      if !ok {
        return;
      }
      if dot - start > 256 {
        return false;
      }
      if CrossesPage(start, dot) {
        extras, fill, dot := saveExtras, saveFill, start;
        FillGap(PageUp(start));
        dot := PageUp(start);
        ok := RunWalk(body, sub);
      }
    }

    method RunWalk(s: Stmt, sub: pos) returns (ok: bool)
      modifies this
      ensures Does(ok, Now(), Walk(s, sub, prog, old(Now())))
      decreases s, 0
    {
      var t := s;
      ghost var goal := Walk(s, sub, prog, old(Now()));
      while !t.End?
        invariant t == s || t < s
        invariant Walk(t, sub, prog, Now()) == goal
        decreases t
      {
        if t.OnePage? {
          ok := RunOnePage(t.body, sub, t.next);
        } else {
          ok := RunSimple(t, sub);
        }
        if !ok {
          return;
        }
        t := t.next;
      }
      return true;
    }

    method MoveCursor(region: Option<string>, end: int)
      modifies this
      ensures Now() == Advance(region, end, old(Now()))
    {
      if region.Some? && end > At(store, Cursor(region.value)) {
        Set(Cursor(region.value), end);
      }
    }

    method RunSection(sect: Section) returns (ok: bool)
      modifies this
      ensures Does(ok, Now(), LayoutSection(sect, prog, old(Now())))
    {
      cur := Some(sect.name);
      var start := Start(sect, prog, Now());
      var sub := SubAlign(sect, prog, Now());
      if start.None? || sub.None? {
        return false;
      }
      Set(Vma(sect.name), start.value);
      var lma := LoadAddress(sect, start.value, prog, Now());
      if lma.None? {
        return false;
      }
      Set(Lma(sect.name), lma.value);
      var byte := SectionFill(sect, prog, Now());
      if byte.None? {
        return false;
      }
      fill, dot := byte.value, start.value;
      assert OpenSection(sect, prog, old(Now())) == Some((Now(), sub.value));
      ok := RunWalk(sect.body, sub.value);
      if ok {
        Finish(sect);
      }
    }

    method Finish(sect: Section)
      modifies this
      ensures Now() == CloseSection(sect, old(Now()))
    {
      var size := dot - At(store, Vma(sect.name));
      Set(Size(sect.name), size);
      var end := At(store, Lma(sect.name)) + size;
      MoveCursor(sect.region, dot);
      MoveCursor(sect.lmaRegion, end);
      cur := None;
    }

    method RunTopStatement(t: Top) returns (ok: bool)
      modifies this
      ensures Does(ok, Now(), ExecTop(t, prog, old(Now())))
    {
      if t.TopSection? {
        ok := RunSection(t.sect);
        return;
      }
      if t.TopAssign? {
        ok := AssignTo(t.kind, t.sym, t.e);
        return;
      }
      var v := Eval(t.e, prog, Now());
      if v.None? {
        return false;
      }
      if t.TopDot? {
        dot := v.value;
      } else if v.value == 0 && failed.None? {
        failed := Some(t.message);
      }
      return true;
    }

    method RunRegions() returns (ok: bool)
      modifies this
      ensures Does(ok, Now(), SetRegions(prog.regions, prog, old(Now())))
    {
      var rs, i := prog.regions, 0;
      ghost var goal := SetRegions(rs, prog, Now());
      while i < |rs|
        invariant 0 <= i <= |rs|
        invariant SetRegions(rs[i..], prog, Now()) == goal
      {
        var r := rs[i];
        assert rs[i..][0] == r && rs[i..][1..] == rs[i + 1..];
        ghost var before := Now();
        var org := Eval(r.origin, prog, Now());
        if org.None? {
          return false;
        }
        Set(Org(r.name), org.value);
        var len := Eval(r.length, prog, Now());
        if len.None? {
          return false;
        }
        Set(Len(r.name), len.value);
        Set(Cursor(r.name), org.value);
        assert SetRegion(r, prog, before) == Some(Now());
        i := i + 1;
      }
      return true;
    }

    method RunPass() returns (ok: bool)
      modifies this
      ensures Does(ok, Now(), Pass(prog, old(Now())))
    {
      dot, bound, cur, extras, failed := 0, {}, None, [], None;
      ok := RunRegions();
      if !ok {
        return;
      }
      var top, i := prog.top, 0;
      ghost var goal := RunTop(top, prog, Now());
      while i < |top|
        invariant 0 <= i <= |top|
        invariant RunTop(top[i..], prog, Now()) == goal
      {
        assert top[i..][0] == top[i] && top[i..][1..] == top[i + 1..];
        ok := RunTopStatement(top[i]);
        if !ok {
          return;
        }
        i := i + 1;
      }
      return true;
    }

    /** Did anything change since the pass before?  Then remember it. */
    method RememberAll() returns (diff: bool)
      modifies this
      ensures diff == !Unchanged(prog, old(Now()))
      ensures Now() == Remember(old(Now()))
    {
      var sects, i := SectionsOf(prog.top), 0;
      diff := false;
      while i < |sects|
        invariant 0 <= i <= |sects|
        invariant diff <==> exists j | 0 <= j < i :: SectionMoved(sects[j])
        invariant Now() == old(Now())
      {
        var n := sects[i].name;
        diff := diff || SectionMoved(sects[i]);
        i := i + 1;
      }
      ghost var sectsDiff := diff;
      var names := prog.symbols.Keys;
      while names != {}
        invariant names <= prog.symbols.Keys
        invariant diff <==> sectsDiff || exists x | x in prog.symbols.Keys - names :: Moved(SymbolValue(x))
        invariant Now() == old(Now())
      {
        var x :| x in names;
        names := names - {x};
        diff := diff || Moved(SymbolValue(x));
      }
      ghost var symsDiff := diff;
      i := 0;
      while i < |prog.sizes|
        invariant 0 <= i <= |prog.sizes|
        invariant diff <==> symsDiff || exists p: nat | p < i :: Moved(PieceVma(p))
        invariant Now() == old(Now())
      {
        diff := diff || Moved(PieceVma(i));
        i := i + 1;
      }
      UnchangedCases(sects);
      prev := store;
    }

    predicate Moved(c: Cell)
      reads this
    {
      At(store, c) != At(prev, c)
    }

    predicate SectionMoved(s: Section)
      reads this
    {
      Moved(Vma(s.name)) || Moved(Lma(s.name)) || Moved(Size(s.name))
    }

    lemma UnchangedCases(sects: seq<Section>)
      requires sects == SectionsOf(prog.top)
      ensures Unchanged(prog, Now()) <==>
              && (forall j | 0 <= j < |sects| :: !SectionMoved(sects[j]))
              && (forall x <- prog.symbols.Keys :: !Moved(SymbolValue(x)))
              && (forall p: nat | p < |prog.sizes| :: !Moved(PieceVma(p)))
    {
      if Unchanged(prog, Now()) {
        forall j | 0 <= j < |sects|
          ensures !SectionMoved(sects[j])
        {
          assert prog.HasSection(sects[j].name);
          assert Observed(Vma(sects[j].name), prog) && Observed(Lma(sects[j].name), prog) && Observed(Size(sects[j].name), prog);
        }
        assert forall x <- prog.symbols.Keys :: Observed(SymbolValue(x), prog);
        assert forall p: nat | p < |prog.sizes| :: Observed(PieceVma(p), prog);
      }
    }

    /** Place everything: repeat passes until nothing changes. */
    method PlaceEverything() returns (ok: bool)
      requires Now() == INITIAL
      modifies this
      ensures ok == LayoutOf(prog).Some?
      ensures ok ==> Now() == LayoutOf(prog).value.0
    {
      var i := 0;
      ghost var goal := LayoutOf(prog);
      while true
        invariant 0 <= i < MAXPASSES
        invariant LayoutLoop(PassOf(prog), Stable(prog), Now(), i) == goal
        decreases MAXPASSES - i
      {
        ok := RunPass();
        if !ok {
          return;
        }
        var diff := RememberAll();
        if !diff && i > 0 {
          return true;
        }
        if i + 1 == MAXPASSES {
          return false;
        }
        i := i + 1;
      }
    }

    /** Do the sections fit, and are they apart? */
    method Checks() returns (ok: bool)
      ensures ok == Checked(prog, Now())
    {
      var ss, i := SectionsOf(prog.top), 0;
      while i < |ss|
        invariant 0 <= i <= |ss|
        invariant forall k | 0 <= k < i :: SectionFits(ss[k], prog, Now())
        invariant forall k, l | 0 <= k < i && k < l < |ss| ::
                    LoadsClear(ss[k], ss[l], prog, Now()) && AddressesClear(ss[k], ss[l], prog, Now())
      {
        if !SectionFits(ss[i], prog, Now()) {
          return false;
        }
        var j := i + 1;
        while j < |ss|
          invariant i < j <= |ss|
          invariant forall l | i < l < j ::
                      LoadsClear(ss[i], ss[l], prog, Now()) && AddressesClear(ss[i], ss[l], prog, Now())
        {
          if !LoadsClear(ss[i], ss[j], prog, Now()) || !AddressesClear(ss[i], ss[j], prog, Now()) {
            return false;
          }
          j := j + 1;
        }
        i := i + 1;
      }
      return true;
    }
  }
}
