/** The binary image: every byte of the output file comes from at most one of a
    module's data, the padding after it, BYTE/WORD data, a filled gap inside a
    section, or the fill between two sections. */
module Image {
  import opened Prelude
  import opened ScriptSyntax
  import opened Layout
  import opened Settling
  import opened Fixpoint
  import opened Occupancy
  import opened Disjointness

  /** What is written: a finished layout, the lowest load address, the fill byte
      between sections, and each module part's linked bytes. */
  datatype Output = Output(prog: Program, st: State, low: int, between: byte, content: seq<seq<byte>>)
  {
    function Sections(): seq<Section> {
      SectionsOf(prog.top)
    }
  }

  predicate Loadable(s: Section, st: State) {
    SectSize(s, st) != 0 && !s.noload
  }

  /** The file offset of an address in a section, for binary output. */
  function FileOff(s: Section, vma: int, o: Output): int {
    SectLma(s, o.st) + (vma - SectVma(s, o.st)) - o.low
  }

  function FileStart(s: Section, o: Output): int {
    FileOff(s, SectVma(s, o.st), o)
  }

  function FileEnd(s: Section, o: Output): int {
    FileStart(s, o) + SectSize(s, o.st)
  }

  /** Where a byte of the file comes from. */
  datatype Source =
    | Gap(sect: Section, index: nat)
    | Datum(sect: Section, index: nat)
    | Body(sect: Section, piece: nat)
    | Padding(sect: Section, piece: nat)
    | After(sect: Section, until: int)

  /** The start of the nearest loadable section at or after the end of s. */
  ghost predicate IsNext(s: Section, until: int, o: Output) {
    && FileEnd(s, o) < until
    && (exists t <- o.Sections() :: Loadable(t, o.st) && FileStart(t, o) == until)
    && (forall t <- o.Sections() :: Loadable(t, o.st) && FileStart(t, o) >= FileEnd(s, o) ==> until <= FileStart(t, o))
  }

  /** The linker writes this source. */
  ghost predicate Active(x: Source, o: Output) {
    && x.sect in o.Sections() && !x.sect.noload
    && match x
       case Gap(s, k) => k < |o.st.extras| && o.st.extras[k].sect == Some(s.name) && !o.st.extras[k].data
       case Datum(s, k) => k < |o.st.extras| && o.st.extras[k].sect == Some(s.name) && o.st.extras[k].data
       case Body(s, p) => p in PiecesOf(s.body) && p !in o.prog.commons
       case Padding(s, p) => p in PiecesOf(s.body) && p !in o.prog.commons
       case After(s, until) => o.between != 0 && Loadable(s, o.st) && IsNext(s, until, o)
  }

  /** First and last+1 address of a source inside its section. */
  function FromVma(x: Source, o: Output): int
    requires !x.After?
  {
    match x
    case Gap(_, k) => if k < |o.st.extras| then o.st.extras[k].vma else 0
    case Datum(_, k) => if k < |o.st.extras| then o.st.extras[k].vma else 0
    case Body(_, p) => Lo(p, o.st)
    case Padding(_, p) => Lo(p, o.st) + o.prog.PieceSize(p)
  }

  function ToVma(x: Source, o: Output): int
    requires !x.After?
  {
    match x
    case Gap(_, k) => if k < |o.st.extras| then ExtraEnd(o.st.extras[k]) else 0
    case Datum(_, k) => if k < |o.st.extras| then ExtraEnd(o.st.extras[k]) else 0
    case Body(_, p) => Lo(p, o.st) + o.prog.PieceSize(p)
    case Padding(_, p) => Hi(p, o.prog, o.st)
  }

  /** The file offsets that a source covers. */
  function From(x: Source, o: Output): int {
    if x.After? then FileEnd(x.sect, o) else FileOff(x.sect, FromVma(x, o), o)
  }

  function To(x: Source, o: Output): int {
    if x.After? then x.until else FileOff(x.sect, ToVma(x, o), o)
  }

  /** A checked layout with binary output. */
  ghost predicate Ready(o: Output) {
    && o.prog.binary && Placeable(o.Sections()) && Laid(o.Sections(), o.prog, o.st) && Checked(o.prog, o.st)
    && (forall s <- o.Sections() :: Loadable(s, o.st) ==> o.low <= SectLma(s, o.st))
    && (forall p <- AllPieces(o.Sections()) :: p < |o.prog.sizes|)
  }

  lemma SourceInSection(x: Source, o: Output)
    requires Ready(o) && Active(x, o) && !x.After?
    ensures Within(SectVma(x.sect, o.st), FromVma(x, o), ToVma(x, o), SectEnd(x.sect, o.st))
  {
    assert SectionLaid(x.sect, o.prog, o.st);
    if x.Body? || x.Padding? {
      var ps := PiecesOf(x.sect.body);
      var i :| 0 <= i < |ps| && ps[i] == x.piece;
      assert Within(SectVma(x.sect, o.st), Lo(ps[i], o.st), Hi(ps[i], o.prog, o.st), SectEnd(x.sect, o.st));
    }
  }

  lemma SameSectionSources(x: Source, y: Source, o: Output)
    requires Ready(o) && Active(x, o) && Active(y, o)
    requires x != y && !x.After? && !y.After? && x.sect == y.sect
    ensures Apart(FromVma(x, o), ToVma(x, o), FromVma(y, o), ToVma(y, o))
  {
    var s := x.sect;
    assert SectionLaid(s, o.prog, o.st);
    if (x.Gap? || x.Datum?) && (y.Gap? || y.Datum?) {
      DataItemsApart(x.index, y.index, Names(o.Sections()), o.st);
    } else if (x.Body? || x.Padding?) && (y.Body? || y.Padding?) {
      PieceSourcesApart(x, y, s, o);
    } else if x.Body? || x.Padding? {
      ExtraSourceApart(x, y, s, o);
    } else {
      ExtraSourceApart(y, x, s, o);
    }
  }

  lemma PieceSourcesApart(x: Source, y: Source, s: Section, o: Output)
    requires SectionLaid(s, o.prog, o.st) && x != y && x.sect == y.sect
    requires (x.Body? || x.Padding?) && (y.Body? || y.Padding?)
    requires x.piece in PiecesOf(s.body) && y.piece in PiecesOf(s.body)
    ensures Apart(FromVma(x, o), ToVma(x, o), FromVma(y, o), ToVma(y, o))
  {
    var ps := PiecesOf(s.body);
    var i :| 0 <= i < |ps| && ps[i] == x.piece;
    var j :| 0 <= j < |ps| && ps[j] == y.piece;
    assert Within(SectVma(s, o.st), Lo(ps[i], o.st), Hi(ps[i], o.prog, o.st), SectEnd(s, o.st));
    assert Within(SectVma(s, o.st), Lo(ps[j], o.st), Hi(ps[j], o.prog, o.st), SectEnd(s, o.st));
    assert i < j ==> Hi(ps[i], o.prog, o.st) <= Lo(ps[j], o.st);
    assert j < i ==> Hi(ps[j], o.prog, o.st) <= Lo(ps[i], o.st);
  }

  lemma ExtraSourceApart(x: Source, y: Source, s: Section, o: Output)
    requires SectionLaid(s, o.prog, o.st)
    requires (x.Body? || x.Padding?) && (y.Gap? || y.Datum?)
    requires x.piece in PiecesOf(s.body) && y.index < |o.st.extras| && o.st.extras[y.index].sect == Some(s.name)
    ensures Apart(FromVma(x, o), ToVma(x, o), FromVma(y, o), ToVma(y, o))
  {
    var ps := PiecesOf(s.body);
    var i :| 0 <= i < |ps| && ps[i] == x.piece;
    assert Within(SectVma(s, o.st), Lo(ps[i], o.st), Hi(ps[i], o.prog, o.st), SectEnd(s, o.st));
    assert Apart(Lo(ps[i], o.st), Hi(ps[i], o.prog, o.st), o.st.extras[y.index].vma, ExtraEnd(o.st.extras[y.index]));
  }

  /** Two loadable sections cover disjoint parts of the file. */
  lemma SectionsApart(s: Section, t: Section, o: Output)
    requires Ready(o) && s in o.Sections() && t in o.Sections() && s != t
    requires Loadable(s, o.st) && Loadable(t, o.st)
    ensures Apart(FileStart(s, o), FileEnd(s, o), FileStart(t, o), FileEnd(t, o))
  {
    var ss := o.Sections();
    var i :| 0 <= i < |ss| && ss[i] == s;
    var j :| 0 <= j < |ss| && ss[j] == t;
    assert i < j ==> LoadsClear(ss[i], ss[j], o.prog, o.st);
    assert j < i ==> LoadsClear(ss[j], ss[i], o.prog, o.st);
  }

  lemma AfterApart(x: Source, t: Section, o: Output)
    requires Ready(o) && Active(x, o) && x.After?
    requires t in o.Sections() && Loadable(t, o.st)
    ensures Apart(From(x, o), To(x, o), FileStart(t, o), FileEnd(t, o))
  {
    assert SectionLaid(t, o.prog, o.st);
    assert SectionLaid(x.sect, o.prog, o.st);
    if t != x.sect {
      SectionsApart(x.sect, t, o);
    }
  }

  lemma NextIsUnique(x: Source, y: Source, o: Output)
    requires x.After? && y.After? && x.sect == y.sect ==> Active(x, o) && Active(y, o)
    ensures x.After? && y.After? && x.sect == y.sect ==> x == y
  {
  }

  /** Two different sources never cover the same file offset, and no
      source starts before the file. */
  lemma SourcesAreDisjoint(x: Source, y: Source, o: Output)
    requires Ready(o) && Active(x, o) && Active(y, o) && x != y
    requires From(x, o) < To(x, o) && From(y, o) < To(y, o)
    ensures Apart(From(x, o), To(x, o), From(y, o), To(y, o))
    ensures 0 <= From(x, o)
  {
    assert SectionLaid(x.sect, o.prog, o.st);
    assert SectionLaid(y.sect, o.prog, o.st);
    SourceInFile(x, o);
    SourceInFile(y, o);
    NextIsUnique(x, y, o);
    if x.After? && y.After? {
      AfterApart(x, y.sect, o);
      AfterApart(y, x.sect, o);
      SectionsApart(x.sect, y.sect, o);
    } else if x.After? {
      AfterApart(x, y.sect, o);
    } else if y.After? {
      AfterApart(y, x.sect, o);
    } else if x.sect == y.sect {
      SameSectionSources(x, y, o);
    } else {
      SectionsApart(x.sect, y.sect, o);
    }
  }

  /** A source inside a section that covers anything makes the section loadable,
      and is inside the section's part of the file. */
  lemma SourceInFile(x: Source, o: Output)
    requires Ready(o) && Active(x, o)
    requires From(x, o) < To(x, o)
    ensures Loadable(x.sect, o.st) && 0 <= From(x, o)
    ensures !x.After? ==> Within(FileStart(x.sect, o), From(x, o), To(x, o), FileEnd(x.sect, o))
  {
    assert SectionLaid(x.sect, o.prog, o.st);
    if !x.After? {
      SourceInSection(x, o);
    }
  }

  // ---- writing the file

  function ByteOf(v: int): byte {
    (v % 256) as byte
  }

  /** The byte that a source puts at a file offset.  WORD data is high byte first. */
  function ByteAt(x: Source, off: int, o: Output): byte {
    match x
    case Gap(_, k) => if k < |o.st.extras| then ByteOf(o.st.extras[k].value) else 0
    case Datum(_, k) =>
      if k >= |o.st.extras| then 0
      else if o.st.extras[k].len == 2 && off == From(x, o) then ByteOf(o.st.extras[k].value / 256)
      else ByteOf(o.st.extras[k].value)
    case Body(_, p) =>
      var i := off - From(x, o);
      if p < |o.content| && 0 <= i < |o.content[p]| then o.content[p][i] else 0
    case Padding(_, p) => ByteOf(At(o.st.store, PieceFill(p)))
    case After(_, _) => o.between
  }

  lemma HighAndLow(v: int)
    ensures v / 256 % 256 * 256 + v % 256 == v % 65536
  {
    var q := v / 256;
    ModuloIs(v, 65536, q / 256, q % 256 * 256 + v % 256);
  }

  /** WORD data is stored high byte first. */
  lemma WordIsBigEndian(x: Source, o: Output)
    requires x.Datum? && x.index < |o.st.extras|
    ensures o.st.extras[x.index].len == 2 ==>
              ByteAt(x, From(x, o), o) as int * 256 + ByteAt(x, From(x, o) + 1, o) as int == o.st.extras[x.index].value % 65536
    ensures o.st.extras[x.index].len == 1 ==> ByteAt(x, From(x, o), o) as int == o.st.extras[x.index].value % 256
  {
    HighAndLow(o.st.extras[x.index].value);
  }

  function Paint(file: map<int, byte>, x: Source, o: Output): map<int, byte> {
    file + map i | From(x, o) <= i < To(x, o) :: ByteAt(x, i, o)
  }

  /** Only a module's own bytes depend on what was linked. */
  lemma PaintSame(file: map<int, byte>, x: Source, o: Output, full: Output)
    requires !x.Body? && full == o.(content := full.content)
    ensures Paint(file, x, o) == Paint(file, x, full)
  {
    assert From(x, o) == From(x, full) && To(x, o) == To(x, full);
    assert forall i :: ByteAt(x, i, o) == ByteAt(x, i, full);
  }

  ghost predicate Covers(x: Source, off: int, o: Output) {
    From(x, o) <= off < To(x, o)
  }

  ghost predicate Shows(file: map<int, byte>, x: Source, o: Output) {
    forall i | Covers(x, i, o) :: i in file && file[i] == ByteAt(x, i, o)
  }

  /** The file holds exactly the sources written so far. */
  ghost predicate Holds(file: map<int, byte>, done: set<Source>, o: Output) {
    && (forall x <- done :: Active(x, o) && Shows(file, x, o))
    && (forall i <- file :: exists x <- done :: Covers(x, i, o))
  }

  /** The file is the image: each source's bytes are there, at offsets that are not
      negative, and nothing else is (so the rest of the file reads as zero). */
  ghost predicate IsImage(file: map<int, byte>, o: Output) {
    && (forall x | Active(x, o) :: Shows(file, x, o))
    && (forall i <- file :: 0 <= i && exists x :: Active(x, o) && Covers(x, i, o))
  }

  lemma PaintHolds(file: map<int, byte>, done: set<Source>, x: Source, o: Output)
    requires Ready(o) && Holds(file, done, o) && Active(x, o)
    ensures Holds(Paint(file, x, o), done + {x}, o)
  {
    var after := Paint(file, x, o);
    forall y <- done + {x}
      ensures Shows(after, y, o)
    {
      if y != x {
        forall i | Covers(y, i, o)
          ensures i in after && after[i] == ByteAt(y, i, o)
        {
          if Covers(x, i, o) {
            SourcesAreDisjoint(x, y, o);
            assert false;
          }
        }
      }
    }
    forall i <- after
      ensures exists y <- done + {x} :: Covers(y, i, o)
    {
      if !Covers(x, i, o) {
        var y :| y in done && Covers(y, i, o);
        assert y in done + {x};
      }
    }
  }

  lemma HoldsImage(file: map<int, byte>, done: set<Source>, o: Output)
    requires Ready(o) && Holds(file, done, o) && forall x | Active(x, o) && From(x, o) < To(x, o) :: x in done
    ensures IsImage(file, o)
  {
    forall i <- file
      ensures 0 <= i && exists x :: Active(x, o) && Covers(x, i, o)
    {
      var x :| x in done && Covers(x, i, o);
      SourceInFile(x, o);
    }
  }
}
