/** From a source line to the loaded program: assembled, generated, linked as one of several
    modules, written as an image and converted to records, a line's bytes are loaded at the load
    address of its place in its section. */
module LoadedSource {
  import opened Prelude
  import opened Memory
  import opened Layout
  import opened Occupancy
  import opened Disjointness
  import opened Image
  import opened LinkedImage
  import opened RecordFile
  import opened EndToEnd
  import opened WholeProgram
  import opened SourceBytes
  import AsmExpression
  import ObjectCode
  import SkipMerging
  import ScriptSyntax
  import ModuleLinker

  /** The object's stream is what the assembler generates for the source. */
  ghost predicate ObjectOf(x: Object, src: SourceFile, externals: seq<string>)
    requires |src.ops| == |src.lines|
  {
    && ObjectCode.Decode(x.stream, 2) == Some(SkipMerging.Merged(0, CompiledAll(src.Items(), externals)))
    && SkipMerging.RunsFit(0, CompiledAll(src.Items(), externals))
  }

  lemma ContentIsPart(k: nat, xs: seq<Object>, o: Output, seg: nat)
    requires LaysOut(|xs|, o) && k < |xs| && seg < NSEG && Links(k, xs[k], o)
    ensures DataPiece(k, seg) < |Linked(xs, o).content|
    ensures Linked(xs, o).content[DataPiece(k, seg)] == Parts(k, xs[k], o).value[seg]
  {
    PieceOfModule(k, seg);
    assert Linked(xs, o).content[DataPiece(k, seg)] == Content(DataPiece(k, seg), xs, o);
  }

  lemma BodyIsActive(k: nat, n: nat, o: Output, seg: nat, s: ScriptSyntax.Section, full: Output)
    requires LaysOut(n, o) && k < n && seg < NSEG && Sect(DataPiece(k, seg), o) == Some(s) && !s.noload
    requires full == o.(content := full.content)
    ensures Active(Body(s, DataPiece(k, seg)), full)
  {
    DataPieceIsPlaced(k, n, o, seg);
  }

  /** An input section's bytes are in memory at its load address. */
  lemma BodyIsLoaded(memory: map<int, byte>, o: Output, s: ScriptSyntax.Section, p: nat, off: nat)
    requires LoadsSources(memory, o) && Active(Body(s, p), o)
    requires p < |o.content| && |o.content[p]| == o.prog.PieceSize(p) && off < |o.content[p]|
    ensures Fetch(memory, SectLma(s, o.st) - SectVma(s, o.st) + Lo(p, o.st) + off) == Some(o.content[p][off])
  {
    var i := FileOff(s, Lo(p, o.st), o) + off;
    assert Covers(Body(s, p), i, o) && ByteAt(Body(s, p), i, o) == o.content[p][off];
    assert Fetch(memory, i + o.low) == Some(ByteAt(Body(s, p), i, o));
  }

  /** The byte of memory where a byte of a module's part belongs. */
  ghost function LoadedByte(memory: map<int, byte>, k: nat, seg: nat, off: int, o: Output): Option<byte>
    requires Sect(DataPiece(k, seg), o).Some?
  {
    var p := DataPiece(k, seg);
    var s := Sect(p, o).value;
    Fetch(memory, SectLma(s, o.st) - SectVma(s, o.st) + Lo(p, o.st) + off)
  }

  /** Byte `off` of the module's part of the segment is loaded, unless the part is NOLOAD. */
  ghost predicate LoadsPart(memory: map<int, byte>, k: nat, seg: nat, off: nat, xs: seq<Object>, o: Output) {
    k < |xs| && seg < NSEG && Links(k, xs[k], o) && off < |Parts(k, xs[k], o).value[seg]| && !NotWritten(DataPiece(k, seg), o) ==>
      LoadedByte(memory, k, seg, off, o) == Some(Parts(k, xs[k], o).value[seg][off])
  }

  ghost predicate LoadsParts(memory: map<int, byte>, xs: seq<Object>, o: Output) {
    forall k: nat, seg: nat, off: nat :: LoadsPart(memory, k, seg, off, xs, o)
  }

  lemma LinkedBody(k: nat, xs: seq<Object>, o: Output, seg: nat, s: ScriptSyntax.Section, full: Output)
    requires LaysOut(|xs|, o) && k < |xs| && seg < NSEG && Links(k, xs[k], o) && full == Linked(xs, o)
    requires Sect(DataPiece(k, seg), o) == Some(s) && !s.noload
    ensures Active(Body(s, DataPiece(k, seg)), full) && DataPiece(k, seg) < |full.content|
    ensures full.content[DataPiece(k, seg)] == Parts(k, xs[k], o).value[seg]
    ensures |full.content[DataPiece(k, seg)]| == full.prog.PieceSize(DataPiece(k, seg))
  {
    ContentIsPart(k, xs, o, seg);
    BodyIsActive(k, |xs|, o, seg, s, full);
  }

  lemma PartByteIsLoaded(memory: map<int, byte>, k: nat, seg: nat, off: nat, o: Output, part: seq<byte>, s: ScriptSyntax.Section,
                         full: Output)
    requires Sect(DataPiece(k, seg), o) == Some(s) && full == o.(content := full.content)
    requires LoadsSources(memory, full) && Active(Body(s, DataPiece(k, seg)), full)
    requires DataPiece(k, seg) < |full.content| && full.content[DataPiece(k, seg)] == part
    requires |part| == full.prog.PieceSize(DataPiece(k, seg)) && off < |part|
    ensures LoadedByte(memory, k, seg, off, o) == Some(part[off])
  {
    BodyIsLoaded(memory, full, s, DataPiece(k, seg), off);
  }

  /** A module's linked bytes are in memory at the load addresses of its part. */
  lemma PartIsLoaded(memory: map<int, byte>, k: nat, seg: nat, off: nat, xs: seq<Object>, o: Output, full: Output)
    requires LaysOut(|xs|, o) && full == Linked(xs, o) && LoadsSources(memory, full)
    ensures LoadsPart(memory, k, seg, off, xs, o)
  {
    if k < |xs| && seg < NSEG && Links(k, xs[k], o) && off < |Parts(k, xs[k], o).value[seg]| && !NotWritten(DataPiece(k, seg), o) {
      var s := Sect(DataPiece(k, seg), o).value;
      LinkedBody(k, xs, o, seg, s, full);
      PartByteIsLoaded(memory, k, seg, off, o, Parts(k, xs[k], o).value[seg], s, full);
    }
  }

  lemma PartsAreLoaded(memory: map<int, byte>, xs: seq<Object>, o: Output)
    requires LaysOut(|xs|, o) && LoadsSources(memory, Linked(xs, o))
    ensures LoadsParts(memory, xs, o)
  {
    forall k: nat, seg: nat, off: nat
      ensures LoadsPart(memory, k, seg, off, xs, o)
    {
      PartIsLoaded(memory, k, seg, off, xs, o, Linked(xs, o));
    }
  }

  /** A part that is placed has at most 65536 bytes. */
  lemma PartFits(k: nat, n: nat, o: Output, seg: nat)
    requires LaysOut(n, o) && k < n && seg < NSEG
    ensures o.prog.PieceSize(DataPiece(k, seg)) <= 0x10000
  {
    DataPieceIsPlaced(k, n, o, seg);
    PieceSection(DataPiece(k, seg), o);
    assert SectionFits(Sect(DataPiece(k, seg), o).value, o.prog, o.st);
  }

  /** What the linker makes of the source is what it makes of the object. */
  lemma ObjectLinks(src: SourceFile, externals: seq<string>, x: Object, k: nat, o: Output)
    requires |src.ops| == |src.lines| && ObjectOf(x, src, externals) && Links(k, x, o)
    ensures LinkedSource(src, externals, map[], ModuleAt(k, x.symbols, o)).Some?
    ensures LinkedSource(src, externals, map[], ModuleAt(k, x.symbols, o)).value.parts == Parts(k, x, o).value
  {
  }

  /** Each byte of a line is in the object's part of its segment, at its location counter. */
  lemma LineInObject(src: SourceFile, i: nat, p: AsmExpression.Placement, externals: seq<string>, j: nat,
                     x: Object, k: nat, n: nat, o: Output)
    requires src.WellFormed() && src.Assembles() && src.Fits(p, externals) && i < |src.lines| && j < |LineCode(src, i, p)|
    requires LaysOut(n, o) && k < n && ObjectOf(x, src, externals) && Links(k, x, o)
    requires Places(ModuleAt(k, x.symbols, o), p, externals)
    ensures 0 <= src.Before(i).here.lc + j < |Parts(k, x, o).value[src.Before(i).cur as nat]|
    ensures Parts(k, x, o).value[src.Before(i).cur as nat][src.Before(i).here.lc + j] == LineCode(src, i, p)[j]
  {
    ObjectLinks(src, externals, x, k, o);
    PartFits(k, n, o, src.Before(i).cur as nat);
    LineInPart(src, i, p, externals, map[], ModuleAt(k, x.symbols, o), j);
  }

  /** Each byte of a line of an accepted source is in memory, at the load address of the line's
      segment part plus the line's location counter. */
  lemma LineIsLoaded(src: SourceFile, i: nat, p: AsmExpression.Placement, externals: seq<string>, j: nat,
                     xs: seq<Object>, k: nat, o: Output, memory: map<int, byte>)
    requires src.WellFormed() && src.Assembles() && src.Fits(p, externals) && i < |src.lines| && j < |LineCode(src, i, p)|
    requires LaysOut(|xs|, o) && k < |xs| && ObjectOf(xs[k], src, externals) && Links(k, xs[k], o)
    requires Places(ModuleAt(k, xs[k].symbols, o), p, externals) && LoadsParts(memory, xs, o)
    requires !NotWritten(DataPiece(k, src.Before(i).cur as nat), o)
    ensures LoadedByte(memory, k, src.Before(i).cur as nat, src.Before(i).here.lc + j, o) == Some(LineCode(src, i, p)[j])
  {
    LineInObject(src, i, p, externals, j, xs[k], k, |xs|, o);
    assert LoadsPart(memory, k, src.Before(i).cur as nat, src.Before(i).here.lc + j, xs, o);
  }
}
