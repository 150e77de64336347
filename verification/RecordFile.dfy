/** Rewriting the binary image as records (ld/script.c:2119-2170): one run for each
    loadable section, in load address order. */
module RecordFile {
  import opened Prelude
  import opened Memory
  import opened ScriptSyntax
  import opened Layout
  import opened Occupancy
  import opened Disjointness
  import opened Image
  import opened LinkedImage
  import opened Records

  /** The part of the image that a section has; common blocks at the end have none. */
  function Slice(s: Section, image: seq<byte>, o: Output): (r: seq<byte>)
    ensures |r| <= if SectSize(s, o.st) < 0 then 0 else SectSize(s, o.st)
  {
    var off, end := FileStart(s, o), FileEnd(s, o);
    if off < 0 || off >= |image| || end < off then [] else if end > |image| then image[off..] else image[off..end]
  }

  // ---- the lines around the data

  /** `srec_end` and `ihex_end` */
  function EndLines(f: Format, records: nat, entry: int): string {
    if f == Srec then LineOf(f, 5, records, []) + LineOf(f, 9, entry, []) else LineOf(f, 1, entry, [])
  }

  lemma LoadCount(next: LineReader, text: string, rest: string, count: nat, memory: map<int, byte>)
    requires next(text) == Some((Record(5, count % 0x10000, []), rest)) && |rest| < |text|
    ensures Load(next, Srec, text, count, memory) == Load(next, Srec, rest, count, memory)
  {
  }

  lemma LoadName(next: LineReader, text: string, r: Record, rest: string, count: nat, memory: map<int, byte>)
    requires next(text) == Some((r, rest)) && r.kind == 0 && |rest| < |text|
    ensures Load(next, Srec, text, count, memory) == Load(next, Srec, rest, count, memory)
  {
  }

  lemma LoadEnd(next: LineReader, f: Format, text: string, entry: int, count: nat, memory: map<int, byte>)
    requires next(text) == Some((Record(EndKind(f), entry, []), "")) && 0 < |text|
    ensures Load(next, f, text, count, memory) == Some(Loaded(memory, entry))
  {
  }

  lemma OnlyLine(f: Format, kind: nat, address: int)
    requires kind < 10
    ensures NextLine(f)(LineOf(f, kind, address, [])) == Some((Record(kind, address % 0x10000, []), ""))
    ensures 0 < |LineOf(f, kind, address, [])|
  {
    LineReads(f, kind, address, [], "");
    LineIsNonempty(f, kind, address, [], "");
    assert LineOf(f, kind, address, []) + "" == LineOf(f, kind, address, []);
  }

  lemma EndReads(f: Format, count: nat, entry: int, memory: map<int, byte>)
    ensures ReadFile(f, EndLines(f, count, entry), count, memory) == Some(Loaded(memory, entry % 0x10000))
  {
    OnlyLine(f, EndKind(f), entry);
    LoadEnd(NextLine(f), f, LineOf(f, EndKind(f), entry, []), entry % 0x10000, count, memory);
    if f == Srec {
      CountReads(LineOf(f, 9, entry, []), count, memory);
    }
  }

  lemma CountReads(rest: string, count: nat, memory: map<int, byte>)
    ensures ReadFile(Srec, LineOf(Srec, 5, count, []) + rest, count, memory) == ReadFile(Srec, rest, count, memory)
  {
    LineReads(Srec, 5, count, [], rest);
    LineIsNonempty(Srec, 5, count, [], rest);
    LoadCount(NextLine(Srec), LineOf(Srec, 5, count, []) + rest, rest, count, memory);
  }

  lemma NameReads(name: seq<byte>, rest: string, count: nat, memory: map<int, byte>)
    requires |name| <= 252
    ensures ReadFile(Srec, LineOf(Srec, 0, 0, name) + rest, count, memory) == ReadFile(Srec, rest, count, memory)
  {
    LineReads(Srec, 0, 0, name, rest);
    LineIsNonempty(Srec, 0, 0, name, rest);
    LoadName(NextLine(Srec), LineOf(Srec, 0, 0, name) + rest, Record(0, 0, name), rest, count, memory);
  }

  // ---- conversion

  /** Whatever follows, the text so far loads this memory from this many records. */
  ghost predicate Loads(next: LineReader, f: Format, text: string, records: nat, memory: map<int, byte>) {
    forall rest :: Load(next, f, text + rest, 0, map[]) == Load(next, f, rest, records, memory)
  }

  lemma LoadsMore(next: LineReader, f: Format, text: string, records: nat, memory: map<int, byte>, buf: seq<byte>, address: int,
                  line: (int, seq<byte>) -> string)
    requires Takes(DataKind(f), line, next)
    requires Loads(next, f, text, records, memory) && 0 <= address && address + |buf| <= 0x10000
    ensures Loads(next, f, text + LinesBy(line, buf, address), records + LineCount(|buf|), Overwrite(memory, address, buf))
  {
    var more := LinesBy(line, buf, address);
    forall rest
      ensures Load(next, f, text + more + rest, 0, map[])
           == Load(next, f, rest, records + LineCount(|buf|), Overwrite(memory, address, buf))
    {
      Assoc(text, more, rest);
      LinesRead(line, next, f, buf, address, rest, records, memory);
    }
  }

  /** The loadable section with the lowest load address above `done`. */
  ghost predicate IsLowest(s: Section, ss: seq<Section>, done: int, st: State) {
    && s in ss && Loadable(s, st) && done < SectLma(s, st)
    && forall t <- ss :: Loadable(t, st) && done < SectLma(t, st) ==> SectLma(s, st) <= SectLma(t, st)
  }

  method NextSection(ss: seq<Section>, done: int, st: State) returns (next: Option<Section>)
    ensures next.Some? ==> IsLowest(next.value, ss, done, st)
    ensures next.None? ==> forall s <- ss :: Loadable(s, st) ==> SectLma(s, st) <= done
  {
    next := None;
    var i := 0;
    while i < |ss|
      invariant 0 <= i <= |ss|
      invariant next.None? ==> forall s <- ss[..i] :: Loadable(s, st) ==> SectLma(s, st) <= done
      invariant next.Some? ==> IsLowest(next.value, ss[..i], done, st)
    {
      var s := ss[i];
      assert ss[..i + 1] == ss[..i] + [s];
      if Loadable(s, st) && SectLma(s, st) > done && (next.None? || SectLma(s, st) < SectLma(next.value, st)) {
        next := Some(s);
      }
      i := i + 1;
    }
    assert ss[..i] == ss;
  }

  predicate Reaches(s: Section, image: seq<byte>, a: int, o: Output) {
    SectLma(s, o.st) <= a < SectLma(s, o.st) + |Slice(s, image, o)|
  }

  ghost predicate Stored(memory: map<int, byte>, s: Section, image: seq<byte>, o: Output) {
    forall a | Reaches(s, image, a, o) :: Fetch(memory, a) == Some(Slice(s, image, o)[a - SectLma(s, o.st)])
  }

  /** The section is loadable, and its load address is at most `done`. */
  predicate Visited(s: Section, done: int, o: Output) {
    s in o.Sections() && Loadable(s, o.st) && SectLma(s, o.st) <= done
  }

  ghost predicate InVisited(a: int, image: seq<byte>, done: int, o: Output) {
    exists s :: Visited(s, done, o) && Reaches(s, image, a, o)
  }

  /** Memory holds exactly the sections with load addresses up to `done`. */
  ghost predicate HoldsUpTo(memory: map<int, byte>, image: seq<byte>, done: int, o: Output) {
    && (forall s | Visited(s, done, o) :: Stored(memory, s, image, o))
    && (forall a <- memory :: InVisited(a, image, done, o))
  }

  lemma StoreKeeps(memory: map<int, byte>, image: seq<byte>, s: Section, t: Section, o: Output)
    requires Ready(o) && s in o.Sections() && t in o.Sections() && Loadable(s, o.st) && Loadable(t, o.st)
    requires t == s || Stored(memory, t, image, o)
    ensures Stored(Overwrite(memory, SectLma(s, o.st), Slice(s, image, o)), t, image, o)
  {
    var after := Overwrite(memory, SectLma(s, o.st), Slice(s, image, o));
    forall a | Reaches(t, image, a, o)
      ensures Fetch(after, a) == Some(Slice(t, image, o)[a - SectLma(t, o.st)])
    {
      OverwriteFetch(memory, SectLma(s, o.st), Slice(s, image, o), a);
      if t != s {
        SectionsApart(s, t, o);
      }
    }
  }

  lemma StoreReaches(memory: map<int, byte>, image: seq<byte>, done: int, s: Section, a: int, o: Output)
    requires HoldsUpTo(memory, image, done, o) && IsLowest(s, o.Sections(), done, o.st)
    requires a in Overwrite(memory, SectLma(s, o.st), Slice(s, image, o))
    ensures InVisited(a, image, SectLma(s, o.st), o)
  {
    OverwriteFetch(memory, SectLma(s, o.st), Slice(s, image, o), a);
    if Reaches(s, image, a, o) {
      assert Visited(s, SectLma(s, o.st), o);
    } else {
      assert a in memory && InVisited(a, image, done, o);
      var t :| Visited(t, done, o) && Reaches(t, image, a, o);
      assert Visited(t, SectLma(s, o.st), o);
    }
  }

  lemma StoreHolds(memory: map<int, byte>, image: seq<byte>, done: int, s: Section, o: Output)
    requires Ready(o) && HoldsUpTo(memory, image, done, o) && IsLowest(s, o.Sections(), done, o.st)
    ensures HoldsUpTo(Overwrite(memory, SectLma(s, o.st), Slice(s, image, o)), image, SectLma(s, o.st), o)
  {
    var after := Overwrite(memory, SectLma(s, o.st), Slice(s, image, o));
    forall t | Visited(t, SectLma(s, o.st), o)
      ensures Stored(after, t, image, o)
    {
      SameAddress(s, t, o);
      assert t != s ==> Visited(t, done, o);
      StoreKeeps(memory, image, s, t, o);
    }
    forall a <- after
      ensures InVisited(a, image, SectLma(s, o.st), o)
    {
      StoreReaches(memory, image, done, s, a, o);
    }
  }

  /** No two loadable sections have the same load address. */
  lemma SameAddress(s: Section, t: Section, o: Output)
    requires Ready(o) && s in o.Sections() && t in o.Sections() && Loadable(s, o.st) && Loadable(t, o.st)
    ensures SectLma(s, o.st) == SectLma(t, o.st) ==> s == t
  {
    assert SectionLaid(s, o.prog, o.st) && SectionLaid(t, o.prog, o.st);
    if s != t {
      SectionsApart(s, t, o);
    }
  }

  /** The sections up to `done`, each once, in strictly increasing load address order. */
  ghost predicate Visits(order: seq<Section>, done: int, o: Output) {
    && (forall s :: s in order <==> Visited(s, done, o))
    && (forall i, j | 0 <= i < j < |order| :: SectLma(order[i], o.st) < SectLma(order[j], o.st))
  }

  lemma VisitNext(order: seq<Section>, done: int, s: Section, o: Output)
    requires Ready(o) && Visits(order, done, o) && IsLowest(s, o.Sections(), done, o.st)
    ensures Visits(order + [s], SectLma(s, o.st), o)
  {
    forall t
      ensures t in order + [s] <==> Visited(t, SectLma(s, o.st), o)
    {
      if Visited(t, SectLma(s, o.st), o) {
        SameAddress(s, t, o);
        assert t != s ==> Visited(t, done, o);
      } else {
        assert !Visited(t, done, o);
      }
    }
    forall i | 0 <= i < |order|
      ensures SectLma(order[i], o.st) < SectLma(s, o.st)
    {
      assert order[i] in order && Visited(order[i], done, o);
    }
  }

  /** A loadable section is in $0000-$FFFF. */
  lemma SliceFits(s: Section, image: seq<byte>, o: Output)
    requires Ready(o) && s in o.Sections() && Loadable(s, o.st)
    ensures 0 <= SectLma(s, o.st) && SectLma(s, o.st) + |Slice(s, image, o)| <= 0x10000 && SectLma(s, o.st) < 0x10000
  {
    assert SectionLaid(s, o.prog, o.st) && SectionFits(s, o.prog, o.st);
  }

  /** The data records of all loadable sections. */
  method ConvertSections(f: Format, o: Output, image: seq<byte>, head: string, ghost next: LineReader)
    returns (text: string, records: nat, ghost order: seq<Section>, ghost memory: map<int, byte>)
    requires Ready(o) && Loads(next, f, head, 0, map[]) && Takes(DataKind(f), DataLine(f), next)
    ensures Loads(next, f, text, records, memory)
    ensures HoldsUpTo(memory, image, 0x10000, o) && Visits(order, 0x10000, o)
  {
    text, records, order, memory := head, 0, [], map[];
    var done := -1;
    NothingYet(image, o);
    while true
      invariant Loads(next, f, text, records, memory) && HoldsUpTo(memory, image, done, o)
      invariant -1 <= done < 0x10000 && Visits(order, done, o)
      decreases 0x10000 - done
    {
      var found := NextSection(o.Sections(), done, o.st);
      if found.None? {
        AllVisited(memory, order, image, done, o);
        return;
      }
      var s := found.value;
      SliceFits(s, image, o);
      VisitNext(order, done, s, o);
      StoreHolds(memory, image, done, s, o);
      text, records := AddData(f, Slice(s, image, o), SectLma(s, o.st), text, records, memory, next);
      memory, order := Overwrite(memory, SectLma(s, o.st), Slice(s, image, o)), order + [s];
      done := SectLma(s, o.st);
    }
  }

  lemma NothingYet(image: seq<byte>, o: Output)
    requires Ready(o)
    ensures HoldsUpTo(map[], image, -1, o) && Visits([], -1, o)
  {
    forall s
      ensures !Visited(s, -1, o)
    {
      if Visited(s, -1, o) {
        SliceFits(s, image, o);
      }
    }
  }

  method AddData(f: Format, data: seq<byte>, address: int, before: string, count: nat, ghost memory: map<int, byte>,
                 ghost next: LineReader)
    returns (text: string, records: nat)
    requires 0 <= address && address + |data| <= 0x10000
    requires Loads(next, f, before, count, memory) && Takes(DataKind(f), DataLine(f), next)
    ensures Loads(next, f, text, records, Overwrite(memory, address, data))
  {
    ghost var more := LinesBy(DataLine(f), data, address);
    LoadsMore(next, f, before, count, memory, data, address, DataLine(f));
    var lines, n := WriteData(f, data, address);
    assert lines == more;
    text, records := before + lines, count + n;
  }

  lemma AllVisited(memory: map<int, byte>, order: seq<Section>, image: seq<byte>, done: int, o: Output)
    requires HoldsUpTo(memory, image, done, o) && Visits(order, done, o) && done < 0x10000
    requires forall s <- o.Sections() :: Loadable(s, o.st) ==> SectLma(s, o.st) <= done
    ensures HoldsUpTo(memory, image, 0x10000, o) && Visits(order, 0x10000, o)
  {
    assert forall s :: Visited(s, 0x10000, o) <==> Visited(s, done, o);
    forall a <- memory
      ensures InVisited(a, image, 0x10000, o)
    {
      var s :| Visited(s, done, o) && Reaches(s, image, a, o);
      assert Visited(s, 0x10000, o);
    }
  }

  /** `script_convert`: loading the result gives every loadable section's bytes at its load
      address, nothing else, and the entry point. `order` lists the sections as visited. */
  method Convert(f: Format, name: seq<byte>, o: Output, image: seq<byte>, entry: int)
    returns (text: string, ghost order: seq<Section>)
    requires Ready(o) && |name| <= 252
    ensures ReadFile(f, text, 0, map[]).Some? && ReadFile(f, text, 0, map[]).value.entry == entry % 0x10000
    ensures HoldsUpTo(ReadFile(f, text, 0, map[]).value.memory, image, 0x10000, o) && Visits(order, 0x10000, o)
  {
    var head := "";
    if f == Srec {
      head := WriteLine(f, 0, 0, name);
    }
    Begins(f, name, head);
    var records: nat;
    ghost var memory;
    ReaderTakes(f);
    text, records, order, memory := ConvertSections(f, o, image, head, NextLine(f));
    EndReads(f, records, entry, memory);
    text := text + EndLines(f, records, entry);
    assert ReadFile(f, text, 0, map[]) == Some(Loaded(memory, entry % 0x10000));
  }

  lemma Begins(f: Format, name: seq<byte>, text: string)
    requires |name| <= 252 && text == if f == Srec then LineOf(f, 0, 0, name) else ""
    ensures Loads(NextLine(f), f, text, 0, map[])
  {
    forall rest
      ensures Load(NextLine(f), f, text + rest, 0, map[]) == Load(NextLine(f), f, rest, 0, map[])
    {
      if f == Srec {
        NameReads(name, rest, 0, map[]);
      } else {
        assert text + rest == rest;
      }
    }
  }

  // ---- from the linked modules to the loaded bytes

  lemma SliceByte(s: Section, image: seq<byte>, i: int, o: Output)
    requires 0 <= FileStart(s, o) <= i < FileEnd(s, o) && i < |image|
    ensures Reaches(s, image, i + o.low, o) && Slice(s, image, o)[i - FileStart(s, o)] == image[i]
  {
  }

  lemma FileByte(image: seq<byte>, file: map<int, byte>, o: Output, x: Source, i: int)
    requires IsImage(file, o) && IsFileOf(image, file) && Active(x, o) && Covers(x, i, o)
    ensures 0 <= i < |image| && image[i] == ByteAt(x, i, o)
  {
    assert Shows(file, x, o);
    assert i in file;
  }

  /** Every byte that is written for a loadable section is loaded at its load address. */
  lemma SourceIsLoaded(memory: map<int, byte>, image: seq<byte>, file: map<int, byte>, o: Output, x: Source, i: int)
    requires Ready(o) && IsImage(file, o) && IsFileOf(image, file) && HoldsUpTo(memory, image, 0x10000, o)
    requires Active(x, o) && !x.After? && Covers(x, i, o)
    ensures Fetch(memory, i + o.low) == Some(ByteAt(x, i, o))
  {
    SourceInFile(x, o);
    FileByte(image, file, o, x, i);
    StartsInFile(x.sect, o);
    SliceFits(x.sect, image, o);
    assert Visited(x.sect, 0x10000, o);
    SectionByteIsLoaded(memory, image, o, x.sect, i);
  }

  lemma SectionByteIsLoaded(memory: map<int, byte>, image: seq<byte>, o: Output, s: Section, i: int)
    requires Stored(memory, s, image, o)
    requires 0 <= FileStart(s, o) <= i < FileEnd(s, o) && i < |image|
    ensures Fetch(memory, i + o.low) == Some(image[i])
  {
    SliceByte(s, image, i, o);
  }

  lemma StartsInFile(s: Section, o: Output)
    requires Ready(o) && s in o.Sections() && Loadable(s, o.st)
    ensures 0 <= FileStart(s, o)
  {
  }

  /** The byte is zero, or a source's byte. */
  ghost predicate HasSource(b: byte, off: int, o: Output) {
    b == 0 || exists x :: Active(x, o) && Covers(x, off, o) && b == ByteAt(x, off, o)
  }

  lemma ImageByte(image: seq<byte>, file: map<int, byte>, o: Output, i: int)
    requires IsImage(file, o) && IsFileOf(image, file) && 0 <= i < |image|
    ensures HasSource(image[i], i, o)
  {
    if i in file {
      var x :| Active(x, o) && Covers(x, i, o);
      assert Shows(file, x, o);
    }
  }

  /** The address is in a loadable section. */
  ghost predicate InSection(a: int, o: Output) {
    exists s <- o.Sections() :: Loadable(s, o.st) && SectLma(s, o.st) <= a < SectLma(s, o.st) + SectSize(s, o.st)
  }

  lemma SliceIsImage(s: Section, image: seq<byte>, a: int, o: Output)
    requires Reaches(s, image, a, o)
    ensures 0 <= a - o.low < |image| && Slice(s, image, o)[a - SectLma(s, o.st)] == image[a - o.low]
  {
  }

  lemma SliceInSection(s: Section, image: seq<byte>, a: int, o: Output)
    requires Ready(o) && s in o.Sections() && Loadable(s, o.st) && Reaches(s, image, a, o)
    ensures InSection(a, o)
  {
    assert SectionLaid(s, o.prog, o.st);
  }

  lemma StoredByte(memory: map<int, byte>, s: Section, image: seq<byte>, a: int, o: Output)
    requires Stored(memory, s, image, o) && Reaches(s, image, a, o)
    ensures 0 <= a - o.low < |image| && Fetch(memory, a) == Some(image[a - o.low])
  {
    SliceIsImage(s, image, a, o);
  }

  lemma LoadedSection(memory: map<int, byte>, image: seq<byte>, done: int, o: Output, a: int) returns (s: Section)
    requires HoldsUpTo(memory, image, done, o) && a in memory
    ensures s in o.Sections() && Loadable(s, o.st) && Reaches(s, image, a, o)
    ensures 0 <= a - o.low < |image| && Fetch(memory, a) == Some(image[a - o.low])
  {
    assert InVisited(a, image, done, o);
    s :| Visited(s, done, o) && Reaches(s, image, a, o);
    StoredByte(memory, s, image, a, o);
  }

  /** What a loader gets from the records: every source's bytes at their load addresses. */
  ghost predicate LoadsSources(memory: map<int, byte>, o: Output) {
    forall x, i | Active(x, o) && !x.After? && Covers(x, i, o) :: Fetch(memory, i + o.low) == Some(ByteAt(x, i, o))
  }

  /** And nothing but sections, in which the other bytes are zero. */
  ghost predicate OnlySources(memory: map<int, byte>, o: Output) {
    forall a <- memory :: InSection(a, o) && HasSource(memory[a], a - o.low, o)
  }

  /** Link the modules as an image and rewrite it as records. */
  method WriteRecords(f: Format, name: seq<byte>, xs: seq<Object>, o: Output, entry: int) returns (ok: bool, text: string)
    requires LaysOut(|xs|, o) && |name| <= 252
    ensures ok <==> AllLink(|xs|, xs, o)
    ensures ok ==> ReadFile(f, text, 0, map[]).Some? && ReadFile(f, text, 0, map[]).value.entry == entry % 0x10000
    ensures ok ==> LoadsSources(ReadFile(f, text, 0, map[]).value.memory, Linked(xs, o))
    ensures ok ==> OnlySources(ReadFile(f, text, 0, map[]).value.memory, Linked(xs, o))
  {
    text := "";
    var file;
    ok, file := WriteImage(xs, o);
    if ok {
      ghost var full := Linked(xs, o);
      var image := ReadBack(file);
      ghost var order;
      text, order := Convert(f, name, o, image, entry);
      SameHoldsUpTo(ReadFile(f, text, 0, map[]).value.memory, image, o, full);
      SameLayout(|xs|, o, full);
      AllLoaded(ReadFile(f, text, 0, map[]).value.memory, image, file, full);
      NothingElse(ReadFile(f, text, 0, map[]).value.memory, image, file, full);
    }
  }

  lemma AllLoaded(memory: map<int, byte>, image: seq<byte>, file: map<int, byte>, o: Output)
    requires Ready(o) && IsImage(file, o) && IsFileOf(image, file) && HoldsUpTo(memory, image, 0x10000, o)
    ensures LoadsSources(memory, o)
  {
    forall x, i | Active(x, o) && !x.After? && Covers(x, i, o)
      ensures Fetch(memory, i + o.low) == Some(ByteAt(x, i, o))
    {
      SourceIsLoaded(memory, image, file, o, x, i);
    }
  }

  lemma NothingElse(memory: map<int, byte>, image: seq<byte>, file: map<int, byte>, o: Output)
    requires Ready(o) && IsImage(file, o) && IsFileOf(image, file) && HoldsUpTo(memory, image, 0x10000, o)
    ensures OnlySources(memory, o)
  {
    forall a <- memory
      ensures InSection(a, o) && HasSource(memory[a], a - o.low, o)
    {
      var s := LoadedSection(memory, image, 0x10000, o, a);
      SliceInSection(s, image, a, o);
      ImageByte(image, file, o, a - o.low);
    }
  }

  lemma SameStored(memory: map<int, byte>, s: Section, image: seq<byte>, o: Output, full: Output)
    requires full == o.(content := full.content) && Stored(memory, s, image, o)
    ensures Stored(memory, s, image, full)
  {
    assert Slice(s, image, o) == Slice(s, image, full);
    assert forall a :: Reaches(s, image, a, full) ==> Reaches(s, image, a, o);
  }

  lemma SameHoldsUpTo(memory: map<int, byte>, image: seq<byte>, o: Output, full: Output)
    requires full == o.(content := full.content) && HoldsUpTo(memory, image, 0x10000, o)
    ensures HoldsUpTo(memory, image, 0x10000, full)
  {
    forall s | Visited(s, 0x10000, full)
      ensures Stored(memory, s, image, full)
    {
      assert Visited(s, 0x10000, o);
      SameStored(memory, s, image, o, full);
    }
    forall a <- memory
      ensures InVisited(a, image, 0x10000, full)
    {
      var s :| Visited(s, 0x10000, o) && Reaches(s, image, a, o);
      assert Visited(s, 0x10000, full) && Reaches(s, image, a, full);
    }
  }
}
