/** The output file as the linker writes it (ld/writex86.c:149-157): fill, then each module by
    its command loop and its padding, then BYTE and WORD data. It is the image of the layout. */
module LinkedImage {
  import opened Prelude
  import opened Memory
  import opened ScriptSyntax
  import opened Layout
  import opened Settling
  import opened Fixpoint
  import opened Occupancy
  import opened Disjointness
  import opened Image
  import opened ImageWriter
  import ObjectCode
  import ModuleLinker
  import LinkerEngine

  /** A loaded module: its command stream, and the values of the symbols it refers to. */
  datatype Object = Object(stream: seq<byte>, symbols: seq<int>)

  // ---- pieces of modules (ld/script.c:1848-1874)

  function ModuleOf(p: nat): nat {
    p / (2 * NSEG)
  }

  function SegmentOf(p: nat): nat {
    p % (2 * NSEG) / 2
  }

  lemma PieceOfModule(k: nat, seg: nat)
    requires seg < NSEG
    ensures ModuleOf(DataPiece(k, seg)) == k && SegmentOf(DataPiece(k, seg)) == seg && DataPiece(k, seg) % 2 == 0
  {
  }

  /** The layout of n modules: all their sections are placed, the odd ones are common. */
  ghost predicate LaysOut(n: nat, o: Output) {
    && Ready(o) && |o.prog.sizes| == 2 * NSEG * n
    && (forall p: nat :: p in AllPieces(o.Sections()) <==> p < |o.prog.sizes|)
    && (forall p: nat :: p in o.prog.commons <==> p < |o.prog.sizes| && p % 2 == 1)
  }

  /** The lowest load address of a loadable section, or `start` when there is none. */
  ghost predicate IsLow(low: int, start: int, ss: seq<Section>, st: State) {
    && (forall s <- ss :: Loadable(s, st) ==> low <= SectLma(s, st))
    && ((exists s <- ss :: Loadable(s, st) && SectLma(s, st) == low)
        || (low == start && forall s <- ss :: !Loadable(s, st)))
  }

  method FindLow(ss: seq<Section>, st: State, start: int) returns (low: int)
    requires forall s <- ss :: 0 <= SectLma(s, st)
    ensures IsLow(low, start, ss, st)
  {
    low := -1;
    var i := 0;
    while i < |ss|
      invariant 0 <= i <= |ss|
      invariant low < 0 ==> forall j | 0 <= j < i :: !Loadable(ss[j], st)
      invariant 0 <= low ==> exists j | 0 <= j < i :: Loadable(ss[j], st) && SectLma(ss[j], st) == low
      invariant 0 <= low ==> forall j | 0 <= j < i :: Loadable(ss[j], st) ==> low <= SectLma(ss[j], st)
    {
      assert ss[i] in ss;
      if Loadable(ss[i], st) && (low < 0 || SectLma(ss[i], st) < low) {
        low := SectLma(ss[i], st);
      }
      i := i + 1;
    }
    if low < 0 {
      low := start;
    }
  }

  /** An accepted binary layout whose sections are all placed lays the modules out. */
  lemma AcceptedLaysOut(n: nat, prog: Program, o: Output, start: int)
    requires LayoutOf(prog).Some? && Placeable(SectionsOf(prog.top)) && Checked(prog, LayoutOf(prog).value.0)
    requires o.prog == prog && o.st == LayoutOf(prog).value.0 && prog.binary
    requires IsLow(o.low, start, SectionsOf(prog.top), o.st)
    requires |prog.sizes| == 2 * NSEG * n
    requires forall p: nat :: p in AllPieces(SectionsOf(prog.top)) <==> p < |prog.sizes|
    requires forall p: nat :: p in prog.commons <==> p < |prog.sizes| && p % 2 == 1
    ensures LaysOut(n, o)
  {
    AcceptedLays(prog);
  }

  // ---- where the layout puts a module (ld/script.c:1941-1971)

  function Sect(p: nat, o: Output): Option<Section> {
    HolderOf(o.Sections(), p)
  }

  function Adjust(p: nat, o: Output): int {
    var s := Sect(p, o);
    if s.None? then 0 else SectLma(s.value, o.st) - SectVma(s.value, o.st) - o.low
  }

  predicate NotWritten(p: nat, o: Output) {
    var s := Sect(p, o);
    s.None? || s.value.noload
  }

  function Pad(p: nat, o: Output): nat {
    var n := At(o.st.store, PiecePad(p));
    if n < 0 then 0 else n
  }

  function PadByte(p: nat, o: Output): byte {
    ByteOf(At(o.st.store, PieceFill(p)))
  }

  function ModuleAt(k: nat, symbols: seq<int>, o: Output): (m: ModuleLinker.Module)
    ensures m.Valid()
  {
    ModuleLinker.Module(
      0,
      seq(NSEG, s requires 0 <= s < NSEG => Lo(DataPiece(k, s), o.st)),
      seq(NSEG, s requires 0 <= s < NSEG => Adjust(DataPiece(k, s), o)),
      seq(NSEG, s requires 0 <= s < NSEG => NotWritten(DataPiece(k, s), o)),
      symbols,
      seq(NSEG, s requires 0 <= s < NSEG => o.prog.PieceSize(DataPiece(k, s))),
      seq(NSEG, s requires 0 <= s < NSEG => Pad(DataPiece(k, s), o)),
      seq(NSEG, s requires 0 <= s < NSEG => PadByte(DataPiece(k, s), o)))
  }

  /** The linker starts a part where the image has the module's bytes. */
  lemma StartIsBody(k: nat, symbols: seq<int>, o: Output, seg: nat, s: Section)
    requires seg < NSEG && Sect(DataPiece(k, seg), o) == Some(s)
    ensures ModuleAt(k, symbols, o).Start(seg) == From(Body(s, DataPiece(k, seg)), o)
    ensures To(Body(s, DataPiece(k, seg)), o) == From(Body(s, DataPiece(k, seg)), o) + o.prog.PieceSize(DataPiece(k, seg))
    ensures From(Padding(s, DataPiece(k, seg)), o) == To(Body(s, DataPiece(k, seg)), o)
    ensures To(Padding(s, DataPiece(k, seg)), o)
         == From(Padding(s, DataPiece(k, seg)), o) + At(o.st.store, PiecePad(DataPiece(k, seg)))
  {
  }

  // ---- what the modules link to

  /** A module's parts before padding. */
  ghost function Parts(k: nat, x: Object, o: Output): Option<seq<seq<byte>>> {
    var m := ModuleAt(k, x.symbols, o);
    var st := LinkerEngine.AfterStream(ObjectCode.Decode(x.stream, 2), ModuleLinker.Begun(map[]), m);
    if st.None? then None else Some(st.value.parts)
  }

  /** The module links, and its parts have the sizes that its header declares. */
  ghost predicate Links(k: nat, x: Object, o: Output) {
    && Parts(k, x, o).Some? && |Parts(k, x, o).value| == NSEG
    && forall s | 0 <= s < NSEG :: |Parts(k, x, o).value[s]| == o.prog.PieceSize(DataPiece(k, s))
  }

  /** The bytes of an input section. */
  ghost function Content(p: nat, xs: seq<Object>, o: Output): seq<byte> {
    if ModuleOf(p) < |xs| && p % 2 == 0 && Links(ModuleOf(p), xs[ModuleOf(p)], o) then
      Parts(ModuleOf(p), xs[ModuleOf(p)], o).value[SegmentOf(p)]
    else []
  }

  /** The layout with the modules' linked bytes. */
  ghost function Linked(xs: seq<Object>, o: Output): Output {
    o.(content := seq(|o.prog.sizes|, p requires 0 <= p < |o.prog.sizes| => Content(p, xs, o)))
  }

  // ---- one module in the file

  /** The sources of one part of a module. */
  ghost function PartSources(k: nat, seg: nat, o: Output): set<Source> {
    var p := DataPiece(k, seg);
    if NotWritten(p, o) then {} else {Body(Sect(p, o).value, p), Padding(Sect(p, o).value, p)}
  }

  ghost function ModuleSources(k: nat, o: Output): set<Source> {
    set seg, x | 0 <= seg < NSEG && x in PartSources(k, seg, o) :: x
  }

  /** A part as it is after padding. */
  ghost predicate PartIs(k: nat, seg: nat, part: seq<byte>, o: Output) {
    var p := DataPiece(k, seg);
    && p < |o.content| && |o.content[p]| == o.prog.PieceSize(p)
    && part == o.content[p] + ModuleLinker.Fill(Pad(p, o), PadByte(p, o))
  }

  ghost predicate PartsAre(k: nat, parts: seq<seq<byte>>, o: Output) {
    |parts| == NSEG && forall seg | 0 <= seg < NSEG :: PartIs(k, seg, parts[seg], o)
  }

  lemma PieceSection(p: nat, o: Output)
    requires Ready(o) && p in AllPieces(o.Sections())
    ensures Sect(p, o).Some? && Sect(p, o).value in o.Sections() && p in PiecesOf(Sect(p, o).value.body)
    ensures Within(SectVma(Sect(p, o).value, o.st), Lo(p, o.st), Hi(p, o.prog, o.st), SectEnd(Sect(p, o).value, o.st))
    ensures Pad(p, o) == At(o.st.store, PiecePad(p))
  {
    PieceIsHeld(o.Sections(), p);
    var s := Sect(p, o).value;
    assert SectionLaid(s, o.prog, o.st);
    var i :| 0 <= i < |PiecesOf(s.body)| && PiecesOf(s.body)[i] == p;
    assert Within(SectVma(s, o.st), Lo(PiecesOf(s.body)[i], o.st), Hi(PiecesOf(s.body)[i], o.prog, o.st), SectEnd(s, o.st));
    assert 0 <= At(o.st.store, PiecePad(PiecesOf(s.body)[i]));
  }

  lemma {:induction false} PieceIsHeld(ss: seq<Section>, p: nat)
    requires p in AllPieces(ss)
    ensures HolderOf(ss, p).Some?
  {
    if p !in PiecesOf(ss[0].body) {
      PieceIsHeld(ss[1..], p);
    }
  }

  lemma SamePartsApart(p: nat, q: nat, s: Section, o: Output)
    requires SectionLaid(s, o.prog, o.st) && p in PiecesOf(s.body) && q in PiecesOf(s.body) && p != q
    ensures Apart(Lo(p, o.st), Hi(p, o.prog, o.st), Lo(q, o.st), Hi(q, o.prog, o.st))
  {
    var ps := PiecesOf(s.body);
    var i :| 0 <= i < |ps| && ps[i] == p;
    var j :| 0 <= j < |ps| && ps[j] == q;
    assert i < j ==> Hi(ps[i], o.prog, o.st) <= Lo(ps[j], o.st);
    assert j < i ==> Hi(ps[j], o.prog, o.st) <= Lo(ps[i], o.st);
  }

  lemma HeldInFile(p: nat, s: Section, o: Output)
    requires Ready(o) && p in AllPieces(o.Sections()) && Sect(p, o) == Some(s)
    requires Lo(p, o.st) < Hi(p, o.prog, o.st)
    ensures s in o.Sections() && SectSize(s, o.st) != 0
    ensures Within(FileStart(s, o), FileOff(s, Lo(p, o.st), o), FileOff(s, Hi(p, o.prog, o.st), o), FileEnd(s, o))
  {
    PieceSection(p, o);
  }

  /** Two input sections that are written, with their padding, are apart in the file. */
  lemma PiecesApart(p: nat, q: nat, s: Section, t: Section, o: Output)
    requires Ready(o) && p in AllPieces(o.Sections()) && q in AllPieces(o.Sections()) && p != q
    requires Sect(p, o) == Some(s) && Sect(q, o) == Some(t) && !s.noload && !t.noload
    requires Lo(p, o.st) < Hi(p, o.prog, o.st) && Lo(q, o.st) < Hi(q, o.prog, o.st)
    ensures Apart(FileOff(s, Lo(p, o.st), o), FileOff(s, Hi(p, o.prog, o.st), o),
                  FileOff(t, Lo(q, o.st), o), FileOff(t, Hi(q, o.prog, o.st), o))
  {
    HeldInFile(p, s, o);
    HeldInFile(q, t, o);
    if s == t {
      assert SectionLaid(s, o.prog, o.st);
      SamePartsApart(p, q, s, o);
    } else {
      SectionsApart(s, t, o);
    }
  }

  /** A written part covers its body and its padding. */
  lemma PartSpan(k: nat, symbols: seq<int>, n: nat, o: Output, seg: nat, part: seq<byte>)
    requires LaysOut(n, o) && k < n && seg < NSEG && PartIs(k, seg, part, o) && !NotWritten(DataPiece(k, seg), o)
    ensures DataPiece(k, seg) in AllPieces(o.Sections())
    ensures ModuleAt(k, symbols, o).Start(seg) == From(Body(Sect(DataPiece(k, seg), o).value, DataPiece(k, seg)), o)
    ensures ModuleAt(k, symbols, o).Start(seg) + |o.content[DataPiece(k, seg)]|
         == To(Body(Sect(DataPiece(k, seg), o).value, DataPiece(k, seg)), o)
         == From(Padding(Sect(DataPiece(k, seg), o).value, DataPiece(k, seg)), o)
    ensures ModuleAt(k, symbols, o).Start(seg) + |part|
         == To(Padding(Sect(DataPiece(k, seg), o).value, DataPiece(k, seg)), o)
    ensures |part| == Hi(DataPiece(k, seg), o.prog, o.st) - Lo(DataPiece(k, seg), o.st)
  {
    var p := DataPiece(k, seg);
    DataPieceIsPlaced(k, n, o, seg);
    PieceSection(p, o);
    StartIsBody(k, symbols, o, seg, Sect(p, o).value);
  }

  lemma DataPieceIsPlaced(k: nat, n: nat, o: Output, seg: nat)
    requires LaysOut(n, o) && k < n && seg < NSEG
    ensures DataPiece(k, seg) in AllPieces(o.Sections()) && DataPiece(k, seg) !in o.prog.commons
  {
    PieceOfModule(k, seg);
    assert DataPiece(k, seg) < |o.prog.sizes|;
  }

  lemma PartIsActive(k: nat, n: nat, o: Output, seg: nat, x: Source)
    requires LaysOut(n, o) && k < n && seg < NSEG && x in PartSources(k, seg, o)
    ensures Active(x, o) && x in ModuleSources(k, o)
  {
    DataPieceIsPlaced(k, n, o, seg);
    PieceIsHeld(o.Sections(), DataPiece(k, seg));
  }

  lemma PartsAreApart(k: nat, symbols: seq<int>, n: nat, o: Output, parts: seq<seq<byte>>)
    requires LaysOut(n, o) && k < n && PartsAre(k, parts, o)
    ensures ModuleLinker.PartsApart(parts, ModuleAt(k, symbols, o))
  {
    var m := ModuleAt(k, symbols, o);
    forall s, t | 0 <= s < t < NSEG && !m.discard[s] && !m.discard[t] && parts[s] != [] && parts[t] != []
      ensures m.Start(s) + |parts[s]| <= m.Start(t) || m.Start(t) + |parts[t]| <= m.Start(s)
    {
      assert PartIs(k, s, parts[s], o) && PartIs(k, t, parts[t], o);
      PartSpan(k, symbols, n, o, s, parts[s]);
      PartSpan(k, symbols, n, o, t, parts[t]);
      PiecesApart(DataPiece(k, s), DataPiece(k, t), Sect(DataPiece(k, s), o).value, Sect(DataPiece(k, t), o).value, o);
    }
  }

  /** The part has what its sources say. */
  lemma PartBytes(k: nat, symbols: seq<int>, n: nat, o: Output, seg: nat, part: seq<byte>, x: Source, i: int)
    requires LaysOut(n, o) && k < n && seg < NSEG && PartIs(k, seg, part, o) && !NotWritten(DataPiece(k, seg), o)
    requires x in PartSources(k, seg, o) && Covers(x, i, o)
    ensures 0 <= i - ModuleAt(k, symbols, o).Start(seg) < |part|
    ensures part[i - ModuleAt(k, symbols, o).Start(seg)] == ByteAt(x, i, o)
  {
    PartSpan(k, symbols, n, o, seg, part);
  }

  /** Each byte of the part is covered by one of its sources. */
  lemma PartIsCovered(k: nat, symbols: seq<int>, n: nat, o: Output, seg: nat, part: seq<byte>, i: int)
    requires LaysOut(n, o) && k < n && seg < NSEG && PartIs(k, seg, part, o) && !NotWritten(DataPiece(k, seg), o)
    requires ModuleAt(k, symbols, o).Start(seg) <= i < ModuleAt(k, symbols, o).Start(seg) + |part|
    ensures exists x <- PartSources(k, seg, o) :: Covers(x, i, o)
  {
    PartSpan(k, symbols, n, o, seg, part);
    var p := DataPiece(k, seg);
    if i < To(Body(Sect(p, o).value, p), o) {
      assert Covers(Body(Sect(p, o).value, p), i, o);
    } else {
      assert Covers(Padding(Sect(p, o).value, p), i, o);
    }
  }

  /** What is elsewhere in the file does not move when the module is written. */
  lemma OthersOutside(k: nat, symbols: seq<int>, n: nat, o: Output, parts: seq<seq<byte>>, y: Source, i: int)
    requires LaysOut(n, o) && k < n && PartsAre(k, parts, o)
    requires Active(y, o) && y !in ModuleSources(k, o) && Covers(y, i, o)
    ensures ModuleLinker.Outside(i, parts, ModuleAt(k, symbols, o))
  {
    var m := ModuleAt(k, symbols, o);
    forall s | 0 <= s < NSEG && !m.discard[s]
      ensures i < m.Start(s) || m.Start(s) + |parts[s]| <= i
    {
      assert PartIs(k, s, parts[s], o);
      if m.Start(s) <= i < m.Start(s) + |parts[s]| {
        PartIsCovered(k, symbols, n, o, s, parts[s], i);
        var x :| x in PartSources(k, s, o) && Covers(x, i, o);
        PartIsActive(k, n, o, s, x);
        SourcesAreDisjoint(x, y, o);
        assert false;
      }
    }
  }

  /** With a module's parts in the file, and nothing else changed, the file holds the
      module's sources too. */
  lemma ModuleHolds(k: nat, symbols: seq<int>, n: nat, o: Output, file: map<int, byte>, done: set<Source>,
                    st: ModuleLinker.Linked)
    requires LaysOut(n, o) && k < n && st.Valid() && PartsAre(k, st.parts, o)
    requires Holds(file, done, o) && ModuleLinker.Holds(st, ModuleAt(k, symbols, o))
    requires forall i | ModuleLinker.Outside(i, st.parts, ModuleAt(k, symbols, o)) :: Fetch(st.file, i) == Fetch(file, i)
    ensures Holds(st.file, done + ModuleSources(k, o), o)
  {
    forall y <- done + ModuleSources(k, o)
      ensures Active(y, o) && Shows(st.file, y, o)
    {
      if y in ModuleSources(k, o) {
        ModuleShows(k, symbols, n, o, st, y);
      } else {
        forall i | Covers(y, i, o)
          ensures i in st.file && st.file[i] == ByteAt(y, i, o)
        {
          OthersOutside(k, symbols, n, o, st.parts, y, i);
          assert Fetch(st.file, i) == Fetch(file, i);
        }
      }
    }
    forall i <- st.file
      ensures exists y <- done + ModuleSources(k, o) :: Covers(y, i, o)
    {
      ModuleCovers(k, symbols, n, o, file, done, st, i);
    }
  }

  lemma PartShows(k: nat, symbols: seq<int>, n: nat, o: Output, seg: nat, part: seq<byte>, file: map<int, byte>,
                  x: Source)
    requires LaysOut(n, o) && k < n && seg < NSEG && PartIs(k, seg, part, o) && x in PartSources(k, seg, o)
    requires ModuleLinker.PartHolds(file, ModuleAt(k, symbols, o).Start(seg), part)
    ensures Shows(file, x, o)
  {
    var start := ModuleAt(k, symbols, o).Start(seg);
    forall i | Covers(x, i, o)
      ensures i in file && file[i] == ByteAt(x, i, o)
    {
      PartBytes(k, symbols, n, o, seg, part, x, i);
      assert Fetch(file, i) == Some(part[i - start]);
    }
  }

  lemma ModuleShows(k: nat, symbols: seq<int>, n: nat, o: Output, st: ModuleLinker.Linked, x: Source)
    requires LaysOut(n, o) && k < n && st.Valid() && PartsAre(k, st.parts, o)
    requires ModuleLinker.Holds(st, ModuleAt(k, symbols, o)) && x in ModuleSources(k, o)
    ensures Active(x, o) && Shows(st.file, x, o)
  {
    var seg :| 0 <= seg < NSEG && x in PartSources(k, seg, o);
    assert PartIs(k, seg, st.parts[seg], o);
    PartIsActive(k, n, o, seg, x);
    PartShows(k, symbols, n, o, seg, st.parts[seg], st.file, x);
  }

  lemma ModuleCovers(k: nat, symbols: seq<int>, n: nat, o: Output, file: map<int, byte>, done: set<Source>,
                     st: ModuleLinker.Linked, i: int)
    requires LaysOut(n, o) && k < n && st.Valid() && PartsAre(k, st.parts, o) && Holds(file, done, o)
    requires ModuleLinker.Outside(i, st.parts, ModuleAt(k, symbols, o)) ==> Fetch(st.file, i) == Fetch(file, i)
    requires i in st.file
    ensures exists y <- done + ModuleSources(k, o) :: Covers(y, i, o)
  {
    var m := ModuleAt(k, symbols, o);
    if ModuleLinker.Outside(i, st.parts, m) {
      assert i in file;
      var y :| y in done && Covers(y, i, o);
      assert y in done + ModuleSources(k, o);
    } else {
      var s :| 0 <= s < NSEG && !m.discard[s] && m.Start(s) <= i < m.Start(s) + |st.parts[s]|;
      assert PartIs(k, s, st.parts[s], o);
      PartIsCovered(k, symbols, n, o, s, st.parts[s], i);
      var x :| x in PartSources(k, s, o) && Covers(x, i, o);
      PartIsActive(k, n, o, s, x);
    }
  }

  // ---- all modules

  /** Nothing but a module's own bytes depends on what was linked. */
  lemma SameHolds(file: map<int, byte>, done: set<Source>, o: Output, full: Output)
    requires full == o.(content := full.content) && Holds(file, done, o) && forall x <- done :: !x.Body?
    ensures Holds(file, done, full)
  {
    forall x <- done
      ensures Active(x, full) && Shows(file, x, full)
    {
      assert Active(x, o) && Shows(file, x, o);
      forall i | Covers(x, i, full)
        ensures i in file && file[i] == ByteAt(x, i, full)
      {
        assert Covers(x, i, o) && ByteAt(x, i, o) == ByteAt(x, i, full);
      }
    }
    forall i <- file
      ensures exists x <- done :: Covers(x, i, full)
    {
      var x :| x in done && Covers(x, i, o);
      assert Covers(x, i, full);
    }
  }

  /** The layout does not depend on the linked bytes. */
  lemma SameLayout(n: nat, o: Output, full: Output)
    requires full == o.(content := full.content) && LaysOut(n, o)
    ensures LaysOut(n, full)
  {
  }

  lemma SameModule(k: nat, symbols: seq<int>, o: Output, full: Output)
    requires full == o.(content := full.content)
    ensures ModuleAt(k, symbols, full) == ModuleAt(k, symbols, o)
  {
  }

  /** A linked part with its padding is the part in the image. */
  lemma LinkedPart(k: nat, xs: seq<Object>, o: Output, seg: nat, part: seq<byte>)
    requires LaysOut(|xs|, o) && k < |xs| && seg < NSEG && Links(k, xs[k], o)
    requires part == Parts(k, xs[k], o).value[seg]
                     + ModuleLinker.Fill(Pad(DataPiece(k, seg), o), PadByte(DataPiece(k, seg), o))
    ensures PartIs(k, seg, part, Linked(xs, o))
  {
    PieceOfModule(k, seg);
    var p := DataPiece(k, seg);
    assert Linked(xs, o).content[p] == Content(p, xs, o);
  }

  /** The parts are the same whatever the file held before. */
  lemma PartsAreLinked(k: nat, x: Object, o: Output, file: map<int, byte>, rs: seq<ObjectCode.Request>,
                       m: ModuleLinker.Module)
    requires m == ModuleAt(k, x.symbols, o) && ObjectCode.Decode(x.stream, 2) == Some(rs)
    ensures Parts(k, x, o)
         == if ModuleLinker.LinkAll(rs, ModuleLinker.Begun(file), m).None? then None
            else Some(ModuleLinker.LinkAll(rs, ModuleLinker.Begun(file), m).value.parts)
  {
    var start := ModuleLinker.Begun(map[]);
    assert start.(file := file) == ModuleLinker.Begun(file);
    ModuleLinker.PartsIgnoreFile(rs, start, m, file);
  }

  /** The module links exactly when its parts have the declared sizes. */
  lemma PartsLink(k: nat, x: Object, o: Output, m: ModuleLinker.Module, st: ModuleLinker.Linked)
    requires m == ModuleAt(k, x.symbols, o) && st.Valid() && Parts(k, x, o) == Some(st.parts)
    ensures Links(k, x, o) <==> ModuleLinker.PadFrom(0, st, m).Some?
  {
    ModuleLinker.PadExtends(0, st, m);
    assert forall seg | 0 <= seg < NSEG :: m.sizes[seg] == o.prog.PieceSize(DataPiece(k, seg));
  }

  /** What linking and padding make of a module's parts is in the image. */
  lemma LinkedParts(k: nat, xs: seq<Object>, o: Output, m: ModuleLinker.Module, st: ModuleLinker.Linked,
                    padded: ModuleLinker.Linked)
    requires LaysOut(|xs|, o) && k < |xs| && m == ModuleAt(k, xs[k].symbols, o) && st.Valid()
    requires Links(k, xs[k], o) && Parts(k, xs[k], o) == Some(st.parts)
    requires ModuleLinker.PadFrom(0, st, m) == Some(padded)
    ensures PartsAre(k, padded.parts, Linked(xs, o))
  {
    ModuleLinker.PadExtends(0, st, m);
    forall seg | 0 <= seg < NSEG
      ensures PartIs(k, seg, padded.parts[seg], Linked(xs, o))
    {
      assert padded.parts[seg] == st.parts[seg] + ModuleLinker.Fill(m.pads[seg], m.fills[seg]);
      LinkedPart(k, xs, o, seg, padded.parts[seg]);
    }
  }

  lemma NextModule(k: nat, n: nat, done: set<Source>, o: Output)
    requires LaysOut(n, o) && k < n && PiecesDone(2 * NSEG * k, done, o)
    ensures PiecesDone(2 * NSEG * (k + 1), done + ModuleSources(k, o), o)
  {
    forall x | Active(x, o) && (x.Body? || x.Padding?) && 2 * NSEG * k <= x.piece < 2 * NSEG * (k + 1)
      ensures x in ModuleSources(k, o)
    {
      SourceOfModule(k, n, x, o);
    }
  }

  lemma SegmentOfPiece(k: nat, p: nat) returns (seg: nat)
    requires 2 * NSEG * k <= p < 2 * NSEG * (k + 1) && p % 2 == 0
    ensures seg < NSEG && p == DataPiece(k, seg)
  {
    seg := (p - 2 * NSEG * k) / 2;
  }

  lemma SourceOfModule(k: nat, n: nat, x: Source, o: Output)
    requires LaysOut(n, o) && k < n && Active(x, o) && (x.Body? || x.Padding?)
    requires 2 * NSEG * k <= x.piece < 2 * NSEG * (k + 1)
    ensures x in ModuleSources(k, o)
  {
    AllPiecesMember(o.Sections(), x.sect, x.piece);
    HolderIsUnique(o.Sections(), x.sect, x.piece);
    assert x.piece % 2 == 0;
    var seg := SegmentOfPiece(k, x.piece);
    assert x in PartSources(k, seg, o);
  }

  /** Link one module and write its padding: false when the linker refuses it. `full` is o with
      the modules' linked bytes. */
  method LinkInto(k: nat, ghost xs: seq<Object>, x: Object, o: Output, file: map<int, byte>, ghost full: Output,
                  ghost done: set<Source>)
    returns (ok: bool, out: map<int, byte>, ghost now: set<Source>)
    requires LaysOut(|xs|, o) && k < |xs| && xs[k] == x && full == Linked(xs, o)
    requires Holds(file, done, full) && PiecesDone(2 * NSEG * k, done, full)
    ensures ok == Links(k, x, o)
    ensures ok ==> Holds(out, now, full) && PiecesDone(2 * NSEG * (k + 1), now, full) && done <= now
  {
    out, now := file, done;
    var m := ModuleAt(k, x.symbols, o);
    var linker := new LinkerEngine.Linker(m, x.stream, file);
    assert x.stream[0..] == x.stream;
    ghost var rs := ObjectCode.Decode(x.stream, 2);
    ok := linker.LinkModule();
    if rs.Some? {
      PartsAreLinked(k, x, o, file, rs.value, m);
    }
    if !ok {
      return;
    }
    ghost var st := ModuleLinker.LinkAll(rs.value, ModuleLinker.Begun(file), m).value;
    PartsLink(k, x, o, m, st);
    ok := linker.PadModule(st);
    if ok {
      out, now := linker.file, done + ModuleSources(k, full);
      ModuleIsIn(k, xs, o, file, done, rs.value, m, st, ModuleLinker.PadFrom(0, st, m).value);
    }
  }

  lemma ModuleIsIn(k: nat, xs: seq<Object>, o: Output, file: map<int, byte>, done: set<Source>, rs: seq<ObjectCode.Request>,
                   m: ModuleLinker.Module, st: ModuleLinker.Linked, padded: ModuleLinker.Linked)
    requires LaysOut(|xs|, o) && k < |xs| && m == ModuleAt(k, xs[k].symbols, o)
    requires ObjectCode.Decode(xs[k].stream, 2) == Some(rs)
    requires ModuleLinker.LinkAll(rs, ModuleLinker.Begun(file), m) == Some(st)
    requires ModuleLinker.PadFrom(0, st, m) == Some(padded)
    requires Holds(file, done, Linked(xs, o)) && PiecesDone(2 * NSEG * k, done, Linked(xs, o))
    ensures Links(k, xs[k], o)
    ensures Holds(padded.file, done + ModuleSources(k, Linked(xs, o)), Linked(xs, o))
    ensures PiecesDone(2 * NSEG * (k + 1), done + ModuleSources(k, Linked(xs, o)), Linked(xs, o))
  {
    var full := Linked(xs, o);
    SameModule(k, xs[k].symbols, o, full);
    SameLayout(|xs|, o, full);
    PartsAreLinked(k, xs[k], o, file, rs, m);
    PartsLink(k, xs[k], o, m, st);
    LinkedParts(k, xs, o, m, st, padded);
    PartsAreApart(k, xs[k].symbols, |xs|, full, padded.parts);
    ModuleLinker.ModuleIsWritten(rs, file, m, st, padded);
    ModuleHolds(k, xs[k].symbols, |xs|, full, file, done, padded);
    NextModule(k, |xs|, done, full);
  }

  /** The first n modules link. */
  ghost predicate AllLink(n: nat, xs: seq<Object>, o: Output)
    requires n <= |xs|
  {
    forall k | 0 <= k < n :: Links(k, xs[k], o)
  }

  lemma LinkNext(k: nat, xs: seq<Object>, o: Output)
    requires k < |xs|
    ensures AllLink(k, xs, o) && Links(k, xs[k], o) ==> AllLink(k + 1, xs, o)
    ensures !Links(k, xs[k], o) ==> !AllLink(|xs|, xs, o)
  {
  }

  /** All modules, in order. */
  method LinkModules(xs: seq<Object>, o: Output, file: map<int, byte>, ghost full: Output, ghost done: set<Source>)
    returns (ok: bool, out: map<int, byte>, ghost now: set<Source>)
    requires LaysOut(|xs|, o) && full == Linked(xs, o) && Holds(file, done, full)
    ensures ok <==> AllLink(|xs|, xs, o)
    ensures ok ==> Holds(out, now, full) && PiecesDone(2 * NSEG * |xs|, now, full) && done <= now
  {
    ok, out, now := true, file, done;
    var k := 0;
    while k < |xs|
      invariant 0 <= k <= |xs| && ok && done <= now
      invariant Holds(out, now, full) && PiecesDone(2 * NSEG * k, now, full)
      invariant AllLink(k, xs, o)
    {
      ok, out, now := LinkInto(k, xs, xs[k], o, out, full, now);
      LinkNext(k, xs, o);
      if !ok {
        return;
      }
      k := k + 1;
    }
  }

  /** Write the output file. It is refused exactly when a module does not link to the sizes that
      its header declares; otherwise it is the image of the layout with the linked bytes. */
  method WriteImage(xs: seq<Object>, o: Output) returns (ok: bool, file: map<int, byte>)
    requires LaysOut(|xs|, o)
    ensures ok <==> AllLink(|xs|, xs, o)
    ensures ok ==> IsImage(file, Linked(xs, o))
  {
    ghost var full := Linked(xs, o);
    ghost var gaps, between, parts, all;
    file, gaps := WriteExtras(false, o, map[], o, {});
    file, between := WriteBetween(o, file, gaps);
    SameHolds(file, between, o, full);
    ok, file, parts := LinkModules(xs, o, file, full, between);
    if ok {
      file, all := WriteExtras(true, o, file, full, parts);
      ImageIsWritten(file, gaps, between, parts, all, o, full);
    }
  }

  lemma ImageIsWritten(file: map<int, byte>, gaps: set<Source>, between: set<Source>, parts: set<Source>, all: set<Source>,
                       o: Output, full: Output)
    requires Ready(full) && full == o.(content := full.content) && gaps <= between <= parts <= all && Holds(file, all, full)
    requires ExtrasDone(false, |o.st.extras|, gaps, o) && BetweenDone(|o.Sections()|, between, o)
    requires PiecesDone(|full.prog.sizes|, parts, full) && ExtrasDone(true, |o.st.extras|, all, full)
    ensures IsImage(file, full)
  {
    forall x | Active(x, full)
      ensures x in all
    {
      assert Active(x, o);
      if x.Body? || x.Padding? {
        AllPiecesMember(full.Sections(), x.sect, x.piece);
      } else if x.After? {
        var j :| 0 <= j < |o.Sections()| && o.Sections()[j] == x.sect;
      }
    }
    HoldsImage(file, all, full);
  }
}
