/** Program-wide disjointness: after a layout that passes the linker's checks, no
    two input sections and BYTE/WORD items share an address. */
module Disjointness {
  import opened Prelude
  import opened ScriptSyntax
  import opened Layout
  import opened InformationFlow
  import opened Settling
  import opened Occupancy

  function SectVma(s: Section, st: State): int {
    At(st.store, Vma(s.name))
  }

  function SectLma(s: Section, st: State): int {
    At(st.store, Lma(s.name))
  }

  function SectSize(s: Section, st: State): int {
    At(st.store, Size(s.name))
  }

  function SectEnd(s: Section, st: State): int {
    SectVma(s, st) + SectSize(s, st)
  }

  /** One section's contents lie inside it and do not overlap. */
  ghost predicate SectionLaid(s: Section, prog: Program, st: State) {
    && SectVma(s, st) <= SectEnd(s, st)
    && PiecesPacked(PiecesOf(s.body), SectVma(s, st), SectEnd(s, st), prog, st)
    && (forall k | 0 <= k < |st.extras| && st.extras[k].sect == Some(s.name) ::
          Within(SectVma(s, st), st.extras[k].vma, ExtraEnd(st.extras[k]), SectEnd(s, st)))
    && (forall i, k | 0 <= i < |PiecesOf(s.body)| && 0 <= k < |st.extras| && st.extras[k].sect == Some(s.name) ::
          Apart(Lo(PiecesOf(s.body)[i], st), Hi(PiecesOf(s.body)[i], prog, st),
                st.extras[k].vma, ExtraEnd(st.extras[k])))
  }

  /** Every extra belongs to one of the sections, and two of one section do not
      overlap. */
  ghost predicate ExtrasLaid(names: set<string>, st: State) {
    && (forall k | 0 <= k < |st.extras| :: st.extras[k].sect.Some? && st.extras[k].sect.value in names)
    && (forall k, l | 0 <= k < l < |st.extras| && st.extras[k].sect == st.extras[l].sect ::
          Apart(st.extras[k].vma, ExtraEnd(st.extras[k]), st.extras[l].vma, ExtraEnd(st.extras[l])))
  }

  function Names(ss: seq<Section>): set<string> {
    set s <- ss :: s.name
  }

  ghost predicate Laid(ss: seq<Section>, prog: Program, st: State) {
    && (forall s <- ss :: SectionLaid(s, prog, st))
    && ExtrasLaid(Names(ss), st)
    && st.cur == None
  }

  ghost predicate UniqueNames(ss: seq<Section>) {
    forall i, j | 0 <= i < j < |ss| :: ss[i].name != ss[j].name
  }

  /** The parser refuses a second section of the same name, and placement gives
      each input section to one statement. */
  ghost predicate Placeable(ss: seq<Section>) {
    UniqueNames(ss) && Distinct(AllPieces(ss))
  }

  /** The new section's extras, seen from the state before it. */
  lemma OneSectionLaid(s: Section, prog: Program, a: State)
    requires LayoutSection(s, prog, a).Some? && Distinct(PiecesOf(s.body))
    requires forall k | 0 <= k < |a.extras| :: a.extras[k].sect != Some(s.name)
    ensures a.extras <= LayoutSection(s, prog, a).value.extras
    ensures SectionLaid(s, prog, LayoutSection(s, prog, a).value)
    ensures ExtrasSince(|a.extras|, s.name, LayoutSection(s, prog, a).value)
  {
    var (begun, sub) := OpenSection(s, prog, a).value;
    var walked := Walk(s.body, sub, prog, begun).value;
    OpenFacts(s, prog, a);
    WalkPacks(s.body, sub, prog, begun);
    WalkOnly(s.body, sub, prog, begun);
    BodyLeavesSection(s.body, prog, Vma(s.name));
    CloseFacts(s, prog, walked);
    ClosedLaid(s, |a.extras|, begun.dot, walked.dot, prog, walked, CloseSection(s, walked));
  }

  lemma OpenFacts(s: Section, prog: Program, a: State)
    requires OpenSection(s, prog, a).Some?
    ensures OpenSection(s, prog, a).value.0.extras == a.extras
    ensures OpenSection(s, prog, a).value.0.cur == Some(s.name)
    ensures At(OpenSection(s, prog, a).value.0.store, Vma(s.name)) == OpenSection(s, prog, a).value.0.dot
  {
  }

  lemma CloseFacts(s: Section, prog: Program, a: State)
    ensures CloseSection(s, a).extras == a.extras && CloseSection(s, a).cur == None
    ensures SectVma(s, CloseSection(s, a)) == SectVma(s, a)
    ensures SectEnd(s, CloseSection(s, a)) == a.dot
    ensures forall p: nat :: Lo(p, CloseSection(s, a)) == Lo(p, a)
    ensures forall p: nat :: Hi(p, prog, CloseSection(s, a)) == Hi(p, prog, a)
  {
  }

  ghost predicate ExtrasSince(from: nat, name: string, st: State) {
    && from <= |st.extras|
    && (forall k | from <= k < |st.extras| :: st.extras[k].sect == Some(name))
    && (forall k, l | from <= k < l < |st.extras| :: ExtraEnd(st.extras[k]) <= st.extras[l].vma)
  }

  lemma ClosedLaid(s: Section, from: nat, lo: int, hi: int, prog: Program, a: State, b: State)
    requires Packed(PiecesOf(s.body), from, lo, hi, prog, a) && a.cur == Some(s.name)
    requires b.extras == a.extras && SectVma(s, b) == lo && SectEnd(s, b) == hi
    requires forall p: nat :: Lo(p, b) == Lo(p, a) && Hi(p, prog, b) == Hi(p, prog, a)
    requires forall k | 0 <= k < from :: a.extras[k].sect != Some(s.name)
    ensures SectionLaid(s, prog, b) && ExtrasSince(from, s.name, b)
  {
  }

  lemma {:induction false} BodyLeavesSection(s: Stmt, prog: Program, c: Cell)
    requires c.Vma? || c.Lma? || c.Size?
    ensures c !in Written(s, prog)
    decreases s
  {
    if !s.End? {
      BodyLeavesSection(s.next, prog, c);
      if s.OnePage? {
        BodyLeavesSection(s.body, prog, c);
      } else if s.Input? {
        PieceCellsKind(s.pieces, c);
      }
    }
  }

  lemma {:induction false} PieceCellsKind(ps: seq<nat>, c: Cell)
    ensures c in PieceCells(ps) ==> c.PieceVma? || c.PiecePad? || c.PieceFill?
  {
    if ps != [] {
      PieceCellsKind(ps[1..], c);
    }
  }

  // ---- the whole pass

  /** Laying out section t leaves section s as it was. */
  lemma OthersKept(s: Section, t: Section, prog: Program, a: State, b: State)
    requires SectionLaid(s, prog, a) && s.name != t.name
    requires forall p <- PiecesOf(s.body) :: p !in PiecesOf(t.body)
    requires Frame(SectionCells(t) + Written(t.body, prog), a, b)
    requires a.extras <= b.extras && ExtrasSince(|a.extras|, t.name, b)
    ensures SectionLaid(s, prog, b)
  {
    var ps := PiecesOf(s.body);
    BodyLeavesSection(t.body, prog, Vma(s.name));
    BodyLeavesSection(t.body, prog, Size(s.name));
    forall i | 0 <= i < |ps|
      ensures Lo(ps[i], b) == Lo(ps[i], a) && Hi(ps[i], prog, b) == Hi(ps[i], prog, a)
    {
      assert ps[i] in PiecesOf(s.body);
      if PieceVma(ps[i]) in Written(t.body, prog) || PiecePad(ps[i]) in Written(t.body, prog) {
        WrittenMember(t.body, prog, ps[i]);
      }
    }
    assert forall k | 0 <= k < |a.extras| :: b.extras[k] == a.extras[k];
  }

  lemma ExtrasAdded(names: set<string>, t: string, a: State, b: State)
    requires ExtrasLaid(names, a) && t !in names
    requires a.extras <= b.extras && ExtrasSince(|a.extras|, t, b)
    ensures ExtrasLaid(names + {t}, b)
  {
    assert forall k | 0 <= k < |a.extras| :: b.extras[k] == a.extras[k];
  }

  lemma SectionLays(done: seq<Section>, t: Section, prog: Program, a: State)
    requires Laid(done, prog, a) && LayoutSection(t, prog, a).Some? && Distinct(PiecesOf(t.body))
    requires t.name !in Names(done)
    requires forall s <- done :: forall p <- PiecesOf(s.body) :: p !in PiecesOf(t.body)
    ensures Laid(done + [t], prog, LayoutSection(t, prog, a).value)
  {
    var b := LayoutSection(t, prog, a).value;
    OneSectionLaid(t, prog, a);
    SectionFrame(t, prog, a);
    forall s <- done
      ensures SectionLaid(s, prog, b)
    {
      assert s.name in Names(done);
      OthersKept(s, t, prog, a, b);
    }
    ExtrasAdded(Names(done), t.name, a, b);
    assert Names(done + [t]) == Names(done) + {t.name};
    SectionCloses(t, prog, a);
  }

  lemma SectionCloses(t: Section, prog: Program, a: State)
    requires LayoutSection(t, prog, a).Some?
    ensures LayoutSection(t, prog, a).value.cur == None
  {
  }

  /** Symbols, "." and ASSERT at the top level do not disturb the sections. */
  lemma OtherTopKeeps(done: seq<Section>, t: Top, prog: Program, a: State)
    requires Laid(done, prog, a) && !t.TopSection? && ExecTop(t, prog, a).Some?
    ensures Laid(done, prog, ExecTop(t, prog, a).value)
  {
    var b := ExecTop(t, prog, a).value;
    ExecTopFrame(t, prog, a);
    forall p: nat
      ensures Lo(p, b) == Lo(p, a) && Hi(p, prog, b) == Hi(p, prog, a)
    {
    }
    assert b.extras == a.extras && b.cur == a.cur;
    forall s <- done
      ensures SectionLaid(s, prog, b)
    {
      assert SectVma(s, b) == SectVma(s, a) && SectSize(s, b) == SectSize(s, a);
    }
  }

  lemma {:induction false} TopLays(done: seq<Section>, top: seq<Top>, prog: Program, a: State)
    requires Laid(done, prog, a) && RunTop(top, prog, a).Some?
    requires Placeable(done + SectionsOf(top))
    ensures Laid(done + SectionsOf(top), prog, RunTop(top, prog, a).value)
    decreases top
  {
    if top == [] {
      assert done + [] == done;
    } else if top[0].TopSection? {
      var t, rest := top[0].sect, SectionsOf(top[1..]);
      assert done + SectionsOf(top) == done + [t] + rest;
      NextPlaceable(done, t, rest);
      SectionLays(done, t, prog, a);
      TopLays(done + [t], top[1..], prog, ExecTop(top[0], prog, a).value);
    } else {
      OtherTopKeeps(done, top[0], prog, a);
      assert SectionsOf(top) == SectionsOf(top[1..]);
      TopLays(done, top[1..], prog, ExecTop(top[0], prog, a).value);
    }
  }

  lemma {:induction false} AllPiecesSplit(ss: seq<Section>, ts: seq<Section>)
    ensures AllPieces(ss + ts) == AllPieces(ss) + AllPieces(ts)
  {
    if ss == [] {
      assert ss + ts == ts;
    } else {
      assert (ss + ts)[1..] == ss[1..] + ts;
      AllPiecesSplit(ss[1..], ts);
    }
  }

  lemma {:induction false} AllPiecesMember(ss: seq<Section>, s: Section, p: nat)
    requires s in ss && p in PiecesOf(s.body)
    ensures p in AllPieces(ss)
  {
    if s != ss[0] {
      AllPiecesMember(ss[1..], s, p);
    }
  }

  lemma NextPlaceable(done: seq<Section>, t: Section, rest: seq<Section>)
    requires Placeable(done + [t] + rest)
    ensures Distinct(PiecesOf(t.body)) && t.name !in Names(done)
    ensures forall s <- done :: forall p <- PiecesOf(s.body) :: p !in PiecesOf(t.body)
  {
    var all := done + [t] + rest;
    assert all == done + ([t] + rest);
    AllPiecesSplit(done, [t] + rest);
    AllPiecesSplit([t], rest);
    assert [t][1..] == [];
    assert AllPieces([t]) == PiecesOf(t.body) + AllPieces([t][1..]) == PiecesOf(t.body);
    DistinctParts(AllPieces(done), PiecesOf(t.body) + AllPieces(rest));
    DistinctParts(PiecesOf(t.body), AllPieces(rest));
    forall s <- done, p <- PiecesOf(s.body)
      ensures p !in PiecesOf(t.body)
    {
      AllPiecesMember(done, s, p);
    }
    assert all[|done|] == t;
    forall i | 0 <= i < |done|
      ensures done[i].name != t.name
    {
      assert all[i] == done[i] && all[i].name != all[|done|].name;
    }
  }

  /** After any pass, every section's contents are inside it and apart. */
  lemma PassLays(prog: Program, a: State)
    requires Pass(prog, a).Some? && Placeable(SectionsOf(prog.top))
    ensures Laid(SectionsOf(prog.top), prog, Pass(prog, a).value)
  {
    var ready := SetRegions(prog.regions, prog, Reset(a)).value;
    SetRegionsScalars(prog.regions, prog, Reset(a));
    assert Laid([], prog, ready);
    assert [] + SectionsOf(prog.top) == SectionsOf(prog.top);
    TopLays([], prog.top, prog, ready);
  }

  // ---- the linker's checks

  /** The section's address range is inside the region. */
  predicate InRegion(s: Section, addr: int, r: string, st: State) {
    At(st.store, Org(r)) <= addr && addr + SectSize(s, st) <= At(st.store, Org(r)) + At(st.store, Len(r))
    && addr <= At(st.store, Org(r)) + At(st.store, Len(r))
  }

  predicate SectionFits(s: Section, prog: Program, st: State) {
    && 0 <= SectVma(s, st) && SectEnd(s, st) <= 0x10000
    && 0 <= SectLma(s, st) && SectLma(s, st) + SectSize(s, st) <= 0x10000
    && (s.region.Some? ==> InRegion(s, SectVma(s, st), s.region.value, st))
    && (s.lmaRegion.Some? ==> InRegion(s, SectLma(s, st), s.lmaRegion.value, st))
    && (SectLma(s, st) != SectVma(s, st) ==> prog.binary)
  }

  predicate LoadsClear(s: Section, t: Section, prog: Program, st: State) {
    SectSize(s, st) != 0 && SectSize(t, st) != 0 && prog.binary && !s.noload && !t.noload ==>
      Apart(SectLma(s, st), SectLma(s, st) + SectSize(s, st), SectLma(t, st), SectLma(t, st) + SectSize(t, st))
  }

  predicate AddressesClear(s: Section, t: Section, prog: Program, st: State) {
    SectSize(s, st) != 0 && SectSize(t, st) != 0 && (s.datapart == t.datapart || !prog.sepid) ==>
      Apart(SectVma(s, st), SectEnd(s, st), SectVma(t, st), SectEnd(t, st))
  }

  /** `checks` reports no error. */
  ghost predicate Checked(prog: Program, st: State) {
    var ss := SectionsOf(prog.top);
    && (forall s <- ss :: SectionFits(s, prog, st))
    && (forall i, j | 0 <= i < j < |ss| :: LoadsClear(ss[i], ss[j], prog, st) && AddressesClear(ss[i], ss[j], prog, st))
  }

  // ---- what the checks give

  /** An address range that something occupies: an input section without its
      padding, or BYTE/WORD data. */
  datatype Item = PieceItem(piece: nat) | DataItem(index: nat)

  function ItemLo(x: Item, prog: Program, st: State): int {
    match x
    case PieceItem(p) => Lo(p, st)
    case DataItem(k) => if k < |st.extras| then st.extras[k].vma else 0
  }

  function ItemHi(x: Item, prog: Program, st: State): int {
    match x
    case PieceItem(p) => Lo(p, st) + prog.PieceSize(p)
    case DataItem(k) => if k < |st.extras| then ExtraEnd(st.extras[k]) else 0
  }

  /** The item is in the section. */
  ghost predicate Inside(x: Item, s: Section, prog: Program, st: State) {
    match x
    case PieceItem(p) => p in PiecesOf(s.body)
    case DataItem(k) => k < |st.extras| && st.extras[k].sect == Some(s.name)
  }

  lemma InsideBounds(x: Item, s: Section, prog: Program, st: State)
    requires SectionLaid(s, prog, st) && Inside(x, s, prog, st)
    ensures Within(SectVma(s, st), ItemLo(x, prog, st), ItemHi(x, prog, st), SectEnd(s, st))
  {
    if x.PieceItem? {
      var i :| 0 <= i < |PiecesOf(s.body)| && PiecesOf(s.body)[i] == x.piece;
      assert Within(SectVma(s, st), Lo(PiecesOf(s.body)[i], st), Hi(PiecesOf(s.body)[i], prog, st), SectEnd(s, st));
    }
  }

  lemma SameSectionApart(x: Item, y: Item, s: Section, prog: Program, st: State)
    requires SectionLaid(s, prog, st) && Inside(x, s, prog, st) && Inside(y, s, prog, st) && x != y
    requires x.DataItem? && y.DataItem? ==>
               Apart(ItemLo(x, prog, st), ItemHi(x, prog, st), ItemLo(y, prog, st), ItemHi(y, prog, st))
    ensures Apart(ItemLo(x, prog, st), ItemHi(x, prog, st), ItemLo(y, prog, st), ItemHi(y, prog, st))
  {
    var ps := PiecesOf(s.body);
    if x.PieceItem? {
      var i :| 0 <= i < |ps| && ps[i] == x.piece;
      if y.PieceItem? {
        var j :| 0 <= j < |ps| && ps[j] == y.piece;
        assert i < j ==> Hi(ps[i], prog, st) <= Lo(ps[j], st);
        assert j < i ==> Hi(ps[j], prog, st) <= Lo(ps[i], st);
      } else {
        assert Apart(Lo(ps[i], st), Hi(ps[i], prog, st), st.extras[y.index].vma, ExtraEnd(st.extras[y.index]));
      }
    } else if y.PieceItem? {
      var j :| 0 <= j < |ps| && ps[j] == y.piece;
      assert Apart(Lo(ps[j], st), Hi(ps[j], prog, st), st.extras[x.index].vma, ExtraEnd(st.extras[x.index]));
    }
  }

  /** Two different input sections, gaps or BYTE/WORD items of a checked layout
      occupy disjoint addresses between $0000 and $FFFF.  With separate
      instruction and data spaces, this holds within each space. */
  lemma ItemsAreDisjoint(x: Item, y: Item, s: Section, t: Section, prog: Program, st: State)
    requires Laid(SectionsOf(prog.top), prog, st) && Checked(prog, st)
    requires s in SectionsOf(prog.top) && t in SectionsOf(prog.top)
    requires Inside(x, s, prog, st) && Inside(y, t, prog, st) && x != y
    requires !prog.sepid || s.datapart == t.datapart
    requires ItemLo(x, prog, st) < ItemHi(x, prog, st) && ItemLo(y, prog, st) < ItemHi(y, prog, st)
    ensures Apart(ItemLo(x, prog, st), ItemHi(x, prog, st), ItemLo(y, prog, st), ItemHi(y, prog, st))
    ensures Within(0, ItemLo(x, prog, st), ItemHi(x, prog, st), 0x10000)
  {
    var ss := SectionsOf(prog.top);
    InsideBounds(x, s, prog, st);
    InsideBounds(y, t, prog, st);
    var i :| 0 <= i < |ss| && ss[i] == s;
    var j :| 0 <= j < |ss| && ss[j] == t;
    if i == j {
      if x.DataItem? && y.DataItem? {
        DataItemsApart(x.index, y.index, Names(ss), st);
      }
      SameSectionApart(x, y, s, prog, st);
    } else {
      assert i < j ==> AddressesClear(ss[i], ss[j], prog, st);
      assert j < i ==> AddressesClear(ss[j], ss[i], prog, st);
    }
  }

  lemma DataItemsApart(k: nat, l: nat, names: set<string>, st: State)
    requires ExtrasLaid(names, st) && k < |st.extras| && l < |st.extras| && k != l
    requires st.extras[k].sect == st.extras[l].sect
    ensures Apart(st.extras[k].vma, ExtraEnd(st.extras[k]), st.extras[l].vma, ExtraEnd(st.extras[l]))
  {
    assert k < l || l < k;
  }
}
