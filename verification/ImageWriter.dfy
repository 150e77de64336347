/** Writing a binary image: fill, then the modules, then BYTE and WORD data. */
module ImageWriter {
  import opened Prelude
  import opened ScriptSyntax
  import opened Layout
  import opened Settling
  import opened Fixpoint
  import opened Occupancy
  import opened Disjointness
  import opened Image

  function SectionNamed(ss: seq<Section>, name: Option<string>): (r: Option<Section>)
    ensures r.Some? ==> r.value in ss && name == Some(r.value.name)
    ensures (exists s <- ss :: name == Some(s.name)) ==> r.Some?
  {
    if ss == [] then None
    else if name == Some(ss[0].name) then Some(ss[0])
    else SectionNamed(ss[1..], name)
  }

  /** The section that an input section was given to. */
  function HolderOf(ss: seq<Section>, p: nat): (r: Option<Section>)
    ensures r.Some? ==> r.value in ss && p in PiecesOf(r.value.body)
    ensures (exists s <- ss :: p in PiecesOf(s.body)) ==> r.Some?
  {
    if ss == [] then None
    else if p in PiecesOf(ss[0].body) then Some(ss[0])
    else HolderOf(ss[1..], p)
  }

  lemma {:induction false} HolderIsUnique(ss: seq<Section>, s: Section, p: nat)
    requires Distinct(AllPieces(ss)) && s in ss && p in PiecesOf(s.body)
    ensures HolderOf(ss, p) == Some(s)
  {
    DistinctParts(PiecesOf(ss[0].body), AllPieces(ss[1..]));
    if p in PiecesOf(ss[0].body) {
      if s in ss[1..] {
        AllPiecesMember(ss[1..], s, p);
      }
    } else {
      HolderIsUnique(ss[1..], s, p);
    }
  }

  /** What the extras of one kind have contributed so far. */
  ghost predicate ExtrasDone(data: bool, k: nat, done: set<Source>, o: Output) {
    forall x | Active(x, o) && (if data then x.Datum? else x.Gap?) && x.index < k :: x in done
  }

  ghost predicate PiecesDone(p: nat, done: set<Source>, o: Output) {
    forall x | Active(x, o) && (x.Body? || x.Padding?) && x.piece < p :: x in done
  }

  ghost predicate BetweenDone(i: nat, done: set<Source>, o: Output)
    requires i <= |o.Sections()|
  {
    forall x, j | Active(x, o) && x.After? && 0 <= j < i && o.Sections()[j] == x.sect :: x in done
  }

  lemma NextExtra(data: bool, k: nat, s: Option<Section>, now: set<Source>, o: Output)
    requires Ready(o) && k < |o.st.extras| && s == SectionNamed(o.Sections(), o.st.extras[k].sect)
    requires ExtrasDone(data, k, now, o)
    requires s.Some? && o.st.extras[k].data == data && !s.value.noload ==>
               (if data then Datum(s.value, k) else Gap(s.value, k)) in now
    ensures ExtrasDone(data, k + 1, now, o)
  {
    forall x | Active(x, o) && (if data then x.Datum? else x.Gap?) && x.index == k
      ensures x in now
    {
      assert x.sect in o.Sections() && o.st.extras[k].sect == Some(x.sect.name);
      assert s.Some? && s.value == x.sect;
    }
  }

  lemma NextBetween(i: nat, b: Option<int>, now: set<Source>, o: Output)
    requires i < |o.Sections()| && BetweenDone(i, now, o)
    requires Loadable(o.Sections()[i], o.st) ==> IsNearest(o.Sections()[i], b, o)
    requires Loadable(o.Sections()[i], o.st) && b.Some? && b.value > FileEnd(o.Sections()[i], o) ==>
               After(o.Sections()[i], b.value) in now
    ensures BetweenDone(i + 1, now, o)
  {
    var s := o.Sections()[i];
    forall x | Active(x, o) && x.After? && x.sect == s
      ensures x in now
    {
      var t :| t in o.Sections() && Loadable(t, o.st) && FileStart(t, o) == x.until;
      assert b.Some? && b.value <= x.until;
      assert x.until <= b.value;
    }
  }

  /** Gaps inside sections, or BYTE and WORD data. `full` is o with the modules' bytes. */
  method WriteExtras(data: bool, o: Output, file: map<int, byte>, ghost full: Output, ghost done: set<Source>)
    returns (out: map<int, byte>, ghost now: set<Source>)
    requires full == o.(content := full.content) && Ready(full) && Holds(file, done, full)
    ensures Holds(out, now, full) && ExtrasDone(data, |o.st.extras|, now, full)
    ensures done <= now && forall x <- now - done :: if data then x.Datum? else x.Gap?
  {
    out, now := file, done;
    var k := 0;
    while k < |o.st.extras|
      invariant 0 <= k <= |o.st.extras|
      invariant Holds(out, now, full) && ExtrasDone(data, k, now, full)
      invariant done <= now && forall x <- now - done :: if data then x.Datum? else x.Gap?
    {
      var x := o.st.extras[k];
      var s := SectionNamed(o.Sections(), x.sect);
      if s.Some? && x.data == data && !s.value.noload {
        var src := if data then Datum(s.value, k) else Gap(s.value, k);
        PaintHolds(out, now, src, full);
        PaintSame(out, src, o, full);
        out, now := Paint(out, src, o), now + {src};
      }
      NextExtra(data, k, s, now, full);
      k := k + 1;
    }
  }

  ghost predicate IsNearest(a: Section, b: Option<int>, o: Output) {
    && (b.Some? ==> b.value >= FileEnd(a, o)
                    && exists t <- o.Sections() :: Loadable(t, o.st) && FileStart(t, o) == b.value)
    && (forall t <- o.Sections() :: Loadable(t, o.st) && FileStart(t, o) >= FileEnd(a, o) ==>
          b.Some? && b.value <= FileStart(t, o))
  }

  /** The start of the nearest loadable section at or after the end of `a`. */
  method FindNext(a: Section, o: Output) returns (b: Option<int>)
    ensures IsNearest(a, b, o)
  {
    var ss, j := o.Sections(), 0;
    b := None;
    while j < |ss|
      invariant 0 <= j <= |ss|
      invariant b.Some? ==> b.value >= FileEnd(a, o) && exists t <- ss :: Loadable(t, o.st) && FileStart(t, o) == b.value
      invariant forall i | 0 <= i < j :: Loadable(ss[i], o.st) && FileStart(ss[i], o) >= FileEnd(a, o) ==>
                  b.Some? && b.value <= FileStart(ss[i], o)
    {
      var t := ss[j];
      if Loadable(t, o.st) && FileStart(t, o) >= FileEnd(a, o) && (b.None? || FileStart(t, o) < b.value) {
        b := Some(FileStart(t, o));
      }
      j := j + 1;
    }
  }

  /** The gap after section i, if it is filled. */
  method WriteAfter(i: nat, o: Output, file: map<int, byte>, ghost done: set<Source>)
    returns (out: map<int, byte>, ghost now: set<Source>)
    requires Ready(o) && Holds(file, done, o) && o.between != 0 && i < |o.Sections()| && BetweenDone(i, done, o)
    ensures Holds(out, now, o) && BetweenDone(i + 1, now, o)
    ensures done <= now && forall x <- now - done :: x.After?
  {
    out, now := file, done;
    var a, b := o.Sections()[i], None;
    if Loadable(a, o.st) {
      b := FindNext(a, o);
      if b.Some? && b.value > FileEnd(a, o) {
        var src := After(a, b.value);
        PaintHolds(out, now, src, o);
        out, now := Paint(out, src, o), now + {src};
      }
    }
    NextBetween(i, b, now, o);
  }

  /** Gaps between sections, in file order. */
  method WriteBetween(o: Output, file: map<int, byte>, ghost done: set<Source>)
    returns (out: map<int, byte>, ghost now: set<Source>)
    requires Ready(o) && Holds(file, done, o)
    ensures Holds(out, now, o) && BetweenDone(|o.Sections()|, now, o)
    ensures done <= now && forall x <- now - done :: x.After?
  {
    out, now := file, done;
    if o.between == 0 {
      return;
    }
    var i := 0;
    while i < |o.Sections()|
      invariant 0 <= i <= |o.Sections()|
      invariant Holds(out, now, o) && BetweenDone(i, now, o)
      invariant done <= now && forall x <- now - done :: x.After?
    {
      out, now := WriteAfter(i, o, out, now);
      i := i + 1;
    }
  }

  // ---- from the accepted layout to the image

  lemma AcceptedLays(prog: Program)
    requires LayoutOf(prog).Some? && Placeable(SectionsOf(prog.top))
    ensures Laid(SectionsOf(prog.top), prog, LayoutOf(prog).value.0)
  {
    var before := LoopAccepts(PassOf(prog), Stable(prog), INITIAL, 0);
    PassLays(prog, before);
    SameLaid(SectionsOf(prog.top), prog, Pass(prog, before).value, LayoutOf(prog).value.0);
  }

  lemma SameLaid(ss: seq<Section>, prog: Program, a: State, b: State)
    requires Laid(ss, prog, a) && b == Remember(a)
    ensures Laid(ss, prog, b)
  {
    forall s <- ss
      ensures SectionLaid(s, prog, b)
    {
      assert SectionLaid(s, prog, a);
      SamePacked(PiecesOf(s.body), SectVma(s, a), SectEnd(s, a), prog, a, b);
    }
  }

  lemma SamePacked(ps: seq<nat>, lo: int, hi: int, prog: Program, a: State, b: State)
    requires PiecesPacked(ps, lo, hi, prog, a) && b == Remember(a)
    ensures PiecesPacked(ps, lo, hi, prog, b)
  {
    KeepsPacked(ps, lo, hi, prog, a, b);
  }

  /** Program-wide disjointness of every accepted layout that passes the checks. */
  lemma AcceptedIsDisjoint(prog: Program, x: Item, y: Item, s: Section, t: Section)
    requires LayoutOf(prog).Some? && Placeable(SectionsOf(prog.top)) && Checked(prog, LayoutOf(prog).value.0)
    requires s in SectionsOf(prog.top) && t in SectionsOf(prog.top)
    requires !prog.sepid || s.datapart == t.datapart
    requires Inside(x, s, prog, LayoutOf(prog).value.0) && Inside(y, t, prog, LayoutOf(prog).value.0) && x != y
    requires ItemLo(x, prog, LayoutOf(prog).value.0) < ItemHi(x, prog, LayoutOf(prog).value.0)
    requires ItemLo(y, prog, LayoutOf(prog).value.0) < ItemHi(y, prog, LayoutOf(prog).value.0)
    ensures Apart(ItemLo(x, prog, LayoutOf(prog).value.0), ItemHi(x, prog, LayoutOf(prog).value.0),
                  ItemLo(y, prog, LayoutOf(prog).value.0), ItemHi(y, prog, LayoutOf(prog).value.0))
    ensures Within(0, ItemLo(x, prog, LayoutOf(prog).value.0), ItemHi(x, prog, LayoutOf(prog).value.0), 0x10000)
  {
    AcceptedLays(prog);
    ItemsAreDisjoint(x, y, s, t, prog, LayoutOf(prog).value.0);
  }
}
