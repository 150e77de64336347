/** The header of an object file: what the assembler writes (as/genobj.c:248-501) and what
    a reader of the format gets from it (ld/readobj.c:113-171, 232-273, 317-346). */
module ObjectHeader {
  import opened Prelude
  import opened ObjectCode

  type Name = seq<byte>

  /** An exported or imported symbol. `bits` is the flag word without the size of the value:
      |..SA.|....N|E|I|.|A|SEGM|. */
  datatype Symbol = Symbol(name: Name, bits: nat, value: nat)

  /** What the header describes: the module's name, the location counters, and the symbols
      in the order of the symbol hash table; names in the segment `textseg` get a suffix. */
  datatype Header = Header(modname: Name, lcs: seq<nat>, symbols: seq<Symbol>, textseg: Option<nat>)

  function HexDigit(n: nat): byte
    requires n < 16
  {
    if n < 10 then (48 + n) as byte else (55 + n) as byte
  }

  function FullName(s: Symbol, textseg: Option<nat>): Name {
    if textseg.Some? && textseg.value < 16 && s.bits % 16 == textseg.value then s.name + [46, HexDigit(textseg.value)]
    else s.name
  }

  predicate IsName(s: Name) {
    s != [] && forall i | 0 <= i < |s| :: s[i] != 0
  }

  predicate Valid(h: Header) {
    && |h.lcs| == NSEG && |h.symbols| < WORD && IsName(h.modname)
    && (forall i | 0 <= i < |h.symbols| :: IsName(h.symbols[i].name) && h.symbols[i].bits < 0x4000)
  }

  // ---- writing

  /** Two and four bytes, most significant first. */
  function Word(n: nat): (s: seq<byte>)
    ensures |s| == 2 && FromBytes(s) == n % WORD
  {
    var s := [(n / 256 % 256) as byte, (n % 256) as byte];
    assert FromBytes(s[..1]) == s[0] as int;
    assert n % WORD == n / 256 % 256 * 256 + n % 256 by {
      ModuloSplits(n, 256);
    }
    s
  }

  function Long(n: nat): (s: seq<byte>)
    ensures |s| == 4 && FromBytes(s) == n % 0x1_0000_0000
  {
    var four := 4;
    LongRange();
    BytesRoundTrip(n, four);
    ToBytes(n, four)
  }

  lemma LongRange()
    ensures Range(4) == 0x1_0000_0000
  {
    assert Range(3) == 256 * WORD;
  }

  function Text(s: Name): seq<byte> {
    s + [0]
  }

  function FlagWord(s: Symbol): nat {
    OffsetSize(s.value) * 0x4000 + s.bits
  }

  function SymbolEntry(s: Symbol, offset: nat): seq<byte> {
    Word(offset) + Word(FlagWord(s)) + ToBytes(s.value, OffsetSize(s.value))
  }

  /** Offsets into the string area: each name starts where the one before ends. */
  function SymbolEntries(ss: seq<Symbol>, offset: nat, textseg: Option<nat>): seq<seq<byte>> {
    if ss == [] then []
    else [SymbolEntry(ss[0], offset)] + SymbolEntries(ss[1..], offset + |FullName(ss[0], textseg)| + 1, textseg)
  }

  function Strings(ss: seq<Symbol>, textseg: Option<nat>): seq<seq<byte>> {
    if ss == [] then [] else [Text(FullName(ss[0], textseg))] + Strings(ss[1..], textseg)
  }

  function Concat(parts: seq<seq<byte>>): seq<byte> {
    if parts == [] then [] else parts[0] + Concat(parts[1..])
  }

  /** The sizes that are not zero, two bytes each. */
  function SizeBytes(lcs: seq<nat>): seq<byte> {
    if lcs == [] then [] else (if lcs[0] != 0 then Word(lcs[0]) else []) + SizeBytes(lcs[1..])
  }

  function SizeCode(lc: nat): nat {
    if lc != 0 then 2 else 0
  }

  /** Two bits for each of the segments 4k to 4k + 3. */
  function SizeDescriptor(lcs: seq<nat>, k: nat): byte
    requires |lcs| == NSEG && k < 4
  {
    (SizeCode(lcs[4 * k]) + 4 * SizeCode(lcs[4 * k + 1]) + 16 * SizeCode(lcs[4 * k + 2]) + 64 * SizeCode(lcs[4 * k + 3])) as byte
  }

  function Descriptors(lcs: seq<nat>): seq<byte>
    requires |lcs| == NSEG
  {
    [SizeDescriptor(lcs, 3), SizeDescriptor(lcs, 2), SizeDescriptor(lcs, 1), SizeDescriptor(lcs, 0)]
  }

  const FILE_HEADER: seq<byte> := [83, 49, 0, 1, 133]

  const MAX_SIZES: seq<byte> := [0x55, 0x55, 0x55, 0x55]

  function Sum(lcs: seq<nat>): nat {
    if lcs == [] then 0 else lcs[0] + Sum(lcs[1..])
  }

  function Entries(h: Header): seq<byte> {
    Concat(SymbolEntries(h.symbols, |h.modname| + 1, h.textseg))
  }

  /** From the symbol count on. */
  function SymbolTable(h: Header): seq<byte> {
    Word(|h.symbols|) + Entries(h) + Text(h.modname) + Concat(Strings(h.symbols, h.textseg))
  }

  function StringSize(h: Header): nat {
    |Text(h.modname) + Concat(Strings(h.symbols, h.textseg))|
  }

  /** From the segment size descriptors on. */
  function Tables(h: Header): seq<byte>
    requires |h.lcs| == NSEG
  {
    Descriptors(h.lcs) + (SizeBytes(h.lcs) + SymbolTable(h))
  }

  /** Text offset and length, string size, class, revision, maximum sizes. */
  function ModuleHead(h: Header, textoffset: nat): seq<byte> {
    Long(textoffset) + Long(Sum(h.lcs)) + Word(StringSize(h)) + [0, 0] + MAX_SIZES
  }

  /** The sum that the assembler stores as the offset of the text. */
  function TextOffset(h: Header): nat {
    5 + 4 + 4 + 2 + 1 + 1 + 4 + 4 + |SizeBytes(h.lcs)| + 2
    + |Entries(h)| + StringSize(h)
  }

  function HeaderBytes(h: Header): seq<byte>
    requires |h.lcs| == NSEG
  {
    FILE_HEADER + (ModuleHead(h, TextOffset(h)) + Tables(h))
  }

  /** The stored offset is where the command stream starts. */
  lemma TextStartsAfterHeader(h: Header)
    requires |h.lcs| == NSEG
    ensures |HeaderBytes(h)| == TextOffset(h)
  {
  }

  // ---- reading

  datatype Entry = Entry(flags: nat, value: nat)

  datatype Module = Module(textoffset: nat, rank: nat, sizes: seq<nat>, modname: Name, entries: seq<Entry>, names: seq<Name>)

  /** What was read, and what is left. */
  type Reading<T> = Option<(T, seq<byte>)>

  function ReadBytes(n: nat, data: seq<byte>): Reading<seq<byte>> {
    if |data| < n then None else Some((data[..n], data[n..]))
  }

  function ReadNumber(n: nat, data: seq<byte>): Reading<nat> {
    var b :- ReadBytes(n, data);
    Some((FromBytes(b.0), b.1))
  }

  /** Two bits of the descriptors say how many bytes a segment's size has. */
  function SizeCount(desc: seq<byte>, seg: nat): nat
    requires |desc| == 4 && seg < NSEG
  {
    ConvertSize(desc[(NSEG - 1 - seg) / 4] as int / Shift(seg % 4) % 4)
  }

  function Shift(k: nat): pos {
    if k == 0 then 1 else if k == 1 then 4 else if k == 2 then 16 else 64
  }

  /** Numbers of the given sizes. */
  function ReadNumbers(counts: seq<nat>, data: seq<byte>): Reading<seq<nat>> {
    if counts == [] then Some(([], data))
    else
      var n :- ReadNumber(counts[0], data);
      var more :- ReadNumbers(counts[1..], n.1);
      Some(([n.0] + more.0, more.1))
  }

  function SizeCounts(desc: seq<byte>): (r: seq<nat>)
    requires |desc| == 4
    ensures |r| == NSEG
  {
    seq(NSEG, seg requires 0 <= seg < NSEG => SizeCount(desc, seg))
  }

  /** String offset, flags, and as many bytes of value as the flags say. */
  function ReadEntry(data: seq<byte>): Reading<Entry> {
    if |data| < 4 || |data| < 4 + ValueSize(data[2..4]) then None
    else
      var end := 4 + ValueSize(data[2..4]);
      Some((Entry(FromBytes(data[2..4]), FromBytes(data[4..end])), data[end..]))
  }

  function ValueSize(flags: seq<byte>): nat {
    ConvertSize(FromBytes(flags) / 0x4000 % 4)
  }

  function ReadMany<T>(read: seq<byte> -> Reading<T>, n: nat, data: seq<byte>): Reading<seq<T>> {
    if n == 0 then Some(([], data))
    else
      var x :- read(data);
      var more :- ReadMany(read, n - 1, x.1);
      Some(([x.0] + more.0, more.1))
  }

  function ReadName(data: seq<byte>): Reading<Name> {
    if data == [] then None
    else if data[0] == 0 then Some(([], data[1..]))
    else
      var more :- ReadName(data[1..]);
      Some(([data[0]] + more.0, more.1))
  }

  /** The parts of a module's header in order; text length, string size, revision and maximum
      sizes are skipped. */
  function ReadModule(data: seq<byte>): Reading<Module> {
    if |data| < 20 then None
    else
      var sizes :- ReadNumbers(SizeCounts(data[16..20]), data[20..]);
      var t :- ReadTable(sizes.1);
      Some((Module(FromBytes(data[..4]), data[10] as int, sizes.0, t.0.0, t.0.1, t.0.2), t.1))
  }

  function ReadTable(data: seq<byte>): Reading<(Name, seq<Entry>, seq<Name>)> {
    var count :- ReadNumber(2, data);
    var entries :- ReadMany(ReadEntry, count.0, count.1);
    var modname :- ReadName(entries.1);
    var names :- ReadMany(ReadName, count.0, modname.1);
    Some(((modname.0, entries.0, names.0), names.1))
  }

  // ---- round trip

  lemma BytesRead(b: seq<byte>, rest: seq<byte>)
    ensures ReadBytes(|b|, b + rest) == Some((b, rest))
  {
  }

  lemma FourCodes(a: nat, b: nat, c: nat, d: nat, k: nat, n: nat)
    requires a < 4 && b < 4 && c < 4 && d < 4 && k < 4 && n == a + 4 * b + 16 * c + 64 * d
    ensures n / Shift(k) % 4 == if k == 0 then a else if k == 1 then b else if k == 2 then c else d
  {
    assert n / 4 == b + 4 * c + 16 * d;
    assert n / 16 == c + 4 * d;
    assert n / 64 == d;
  }

  lemma DescriptorReads(lcs: seq<nat>, seg: nat)
    requires |lcs| == NSEG && seg < NSEG
    ensures SizeCount(Descriptors(lcs), seg) == SizeCode(lcs[seg])
  {
    var k := seg / 4;
    assert (NSEG - 1 - seg) / 4 == 3 - k;
    FourCodes(SizeCode(lcs[4 * k]), SizeCode(lcs[4 * k + 1]), SizeCode(lcs[4 * k + 2]), SizeCode(lcs[4 * k + 3]), seg % 4,
              SizeDescriptor(lcs, k) as int);
  }

  /** Segment sizes are kept modulo 65536. */
  function SizesOf(lcs: seq<nat>): seq<nat> {
    if lcs == [] then [] else [lcs[0] % WORD] + SizesOf(lcs[1..])
  }

  lemma {:induction false} SizesRead(lcs: seq<nat>, counts: seq<nat>, rest: seq<byte>)
    requires |counts| == |lcs| && forall i | 0 <= i < |lcs| :: counts[i] == SizeCode(lcs[i])
    ensures ReadNumbers(counts, SizeBytes(lcs) + rest) == Some((SizesOf(lcs), rest))
    decreases |lcs|
  {
    if lcs == [] {
      assert SizeBytes(lcs) + rest == rest;
    } else {
      var left := SizeBytes(lcs[1..]) + rest;
      var first := if lcs[0] != 0 then Word(lcs[0]) else [];
      Assoc(first, SizeBytes(lcs[1..]), rest);
      BytesRead(first, left);
      SizesRead(lcs[1..], counts[1..], rest);
    }
  }

  function EntryOf(s: Symbol): Entry {
    Entry(FlagWord(s), s.value % WORD)
  }

  function EntriesOf(ss: seq<Symbol>): seq<Entry> {
    if ss == [] then [] else [EntryOf(ss[0])] + EntriesOf(ss[1..])
  }

  lemma FlagsReadBack(s: Symbol)
    requires s.bits < 0x4000
    ensures FlagWord(s) < WORD && ConvertSize(FlagWord(s) / 0x4000 % 4) == OffsetSize(s.value)
  {
  }

  lemma EntryParts(o: seq<byte>, f: seq<byte>, v: seq<byte>, rest: seq<byte>)
    requires |o| == |f| == 2 && |v| == ValueSize(f)
    ensures ReadEntry(o + f + v + rest) == Some((Entry(FromBytes(f), FromBytes(v)), rest))
  {
    var data := o + f + v + rest;
    assert data[2..4] == f && data[4..4 + |v|] == v && data[4 + |v|..] == rest;
  }

  lemma EntryNumbers(s: Symbol)
    requires s.bits < 0x4000
    ensures FromBytes(Word(FlagWord(s))) == FlagWord(s) && ValueSize(Word(FlagWord(s))) == OffsetSize(s.value)
    ensures FromBytes(ToBytes(s.value, OffsetSize(s.value))) == s.value % WORD
  {
    FlagsReadBack(s);
    NumberParts(0, s.value);
  }

  lemma EntryReads(s: Symbol, offset: nat, rest: seq<byte>)
    requires s.bits < 0x4000
    ensures ReadEntry(SymbolEntry(s, offset) + rest) == Some((EntryOf(s), rest))
  {
    EntryNumbers(s);
    EntryParts(Word(offset), Word(FlagWord(s)), ToBytes(s.value, OffsetSize(s.value)), rest);
  }

  /** Values that are read back one by one are read back in a row. */
  lemma {:induction false} ManyRead<T>(read: seq<byte> -> Reading<T>, parts: seq<seq<byte>>, values: seq<T>, rest: seq<byte>)
    requires |parts| == |values|
    requires forall i, left | 0 <= i < |parts| :: read(parts[i] + left) == Some((values[i], left))
    ensures ReadMany(read, |parts|, Concat(parts) + rest) == Some((values, rest))
    decreases |parts|
  {
    if parts == [] {
      assert Concat(parts) + rest == rest;
    } else {
      var left := Concat(parts[1..]) + rest;
      Assoc(parts[0], Concat(parts[1..]), rest);
      assert read(parts[0] + left) == Some((values[0], left));
      ManyRead(read, parts[1..], values[1..], rest);
      assert [values[0]] + values[1..] == values;
    }
  }

  lemma {:induction false} EntryCount(ss: seq<Symbol>, offset: nat, textseg: Option<nat>)
    ensures |SymbolEntries(ss, offset, textseg)| == |EntriesOf(ss)| == |ss|
    decreases |ss|
  {
    if ss != [] {
      EntryCount(ss[1..], offset + |FullName(ss[0], textseg)| + 1, textseg);
    }
  }

  lemma {:induction false} EntryAt(ss: seq<Symbol>, offset: nat, textseg: Option<nat>, i: nat, left: seq<byte>)
    requires i < |ss| == |SymbolEntries(ss, offset, textseg)| == |EntriesOf(ss)|
    requires forall j | 0 <= j < |ss| :: ss[j].bits < 0x4000
    ensures ReadEntry(SymbolEntries(ss, offset, textseg)[i] + left) == Some((EntriesOf(ss)[i], left))
    decreases |ss|
  {
    if i == 0 {
      EntryReads(ss[0], offset, left);
    } else {
      var next := offset + |FullName(ss[0], textseg)| + 1;
      EntryCount(ss[1..], next, textseg);
      EntryAt(ss[1..], next, textseg, i - 1, left);
    }
  }

  lemma EntriesRead(ss: seq<Symbol>, offset: nat, textseg: Option<nat>, rest: seq<byte>)
    requires forall i | 0 <= i < |ss| :: ss[i].bits < 0x4000
    ensures ReadMany(ReadEntry, |ss|, Concat(SymbolEntries(ss, offset, textseg)) + rest) == Some((EntriesOf(ss), rest))
  {
    var parts, values := SymbolEntries(ss, offset, textseg), EntriesOf(ss);
    EntryCount(ss, offset, textseg);
    forall i, left | 0 <= i < |ss|
      ensures ReadEntry(parts[i] + left) == Some((values[i], left))
    {
      EntryAt(ss, offset, textseg, i, left);
    }
    ManyRead(ReadEntry, parts, values, rest);
  }

  lemma {:induction false} NameReads(s: Name, rest: seq<byte>)
    requires forall i | 0 <= i < |s| :: s[i] != 0
    ensures ReadName(Text(s) + rest) == Some((s, rest))
    decreases |s|
  {
    if s == [] {
      assert (Text(s) + rest)[1..] == rest;
    } else {
      assert (Text(s) + rest)[0] == s[0] && (Text(s) + rest)[1..] == Text(s[1..]) + rest;
      NameReads(s[1..], rest);
      assert [s[0]] + s[1..] == s;
    }
  }

  function NamesOf(ss: seq<Symbol>, textseg: Option<nat>): seq<Name> {
    if ss == [] then [] else [FullName(ss[0], textseg)] + NamesOf(ss[1..], textseg)
  }

  lemma {:induction false} NameAt(ss: seq<Symbol>, textseg: Option<nat>, i: nat, left: seq<byte>)
    requires i < |ss| && forall j | 0 <= j < |ss| :: IsName(ss[j].name)
    ensures |Strings(ss, textseg)| == |NamesOf(ss, textseg)| == |ss|
    ensures ReadName(Strings(ss, textseg)[i] + left) == Some((NamesOf(ss, textseg)[i], left))
    decreases |ss|
  {
    if |ss| > 1 {
      NameAt(ss[1..], textseg, if i > 0 then i - 1 else 0, left);
    }
    if i == 0 {
      NameReads(FullName(ss[0], textseg), left);
    }
  }

  lemma NamesRead(ss: seq<Symbol>, textseg: Option<nat>, rest: seq<byte>)
    requires forall i | 0 <= i < |ss| :: IsName(ss[i].name)
    ensures ReadMany(ReadName, |ss|, Concat(Strings(ss, textseg)) + rest) == Some((NamesOf(ss, textseg), rest))
  {
    var parts, values := Strings(ss, textseg), NamesOf(ss, textseg);
    forall i, left | 0 <= i < |ss|
      ensures |parts| == |values| == |ss| && ReadName(parts[i] + left) == Some((values[i], left))
    {
      NameAt(ss, textseg, i, left);
    }
    if ss != [] {
      NameAt(ss, textseg, 0, []);
    }
    ManyRead(ReadName, parts, values, rest);
  }

  lemma TableParts(count: seq<byte>, entries: seq<byte>, modname: seq<byte>, names: seq<byte>, rest: seq<byte>)
    ensures count + entries + modname + names + rest == count + (entries + (modname + (names + rest)))
  {
    Assoc(count + entries + modname, names, rest);
    Assoc(count + entries, modname, names + rest);
    Assoc(count, entries, modname + (names + rest));
  }

  lemma TableInOrder(count: seq<byte>, left: seq<byte>, es: seq<Entry>, left2: seq<byte>, mn: Name, left3: seq<byte>,
                     ns: seq<Name>, rest: seq<byte>)
    requires |count| == 2 && ReadMany(ReadEntry, FromBytes(count), left) == Some((es, left2))
    requires ReadName(left2) == Some((mn, left3)) && ReadMany(ReadName, FromBytes(count), left3) == Some((ns, rest))
    ensures ReadTable(count + left) == Some(((mn, es, ns), rest))
  {
    BytesRead(count, left);
  }

  lemma TableReads(h: Header, rest: seq<byte>)
    requires Valid(h)
    ensures ReadTable(SymbolTable(h) + rest)
         == Some(((h.modname, EntriesOf(h.symbols), NamesOf(h.symbols, h.textseg)), rest))
  {
    var count, entries := Word(|h.symbols|), Entries(h);
    var modname, names := Text(h.modname), Concat(Strings(h.symbols, h.textseg));
    TableParts(count, entries, modname, names, rest);
    assert FromBytes(count) == |h.symbols|;
    EntriesRead(h.symbols, |h.modname| + 1, h.textseg, modname + (names + rest));
    NameReads(h.modname, names + rest);
    NamesRead(h.symbols, h.textseg, rest);
    TableInOrder(count, entries + (modname + (names + rest)), EntriesOf(h.symbols), modname + (names + rest), h.modname,
                 names + rest, NamesOf(h.symbols, h.textseg), rest);
  }

  /** What a reader gets. */
  function ModuleOf(h: Header): Module {
    Module(TextOffset(h) % 0x1_0000_0000, 0, SizesOf(h.lcs), h.modname, EntriesOf(h.symbols), NamesOf(h.symbols, h.textseg))
  }

  /** The first 20 bytes, and then the tables. */
  lemma HeadParts(a: seq<byte>, b: seq<byte>, c: seq<byte>, d: seq<byte>, e: seq<byte>, desc: seq<byte>, rest: seq<byte>, data: seq<byte>)
    requires |a| == |b| == |e| == |desc| == 4 && |c| == 2 && |d| == 2 && d[0] == 0
    requires data == a + b + c + d + e + (desc + rest)
    ensures |data| >= 20 && data[..4] == a && data[10] == 0 && data[16..20] == desc && data[20..] == rest
  {
  }

  lemma ReadsInOrder(data: seq<byte>, sizes: seq<nat>, left: seq<byte>, t: (Name, seq<Entry>, seq<Name>), end: seq<byte>)
    requires |data| >= 20 && ReadNumbers(SizeCounts(data[16..20]), data[20..]) == Some((sizes, left))
    requires ReadTable(left) == Some((t, end))
    ensures ReadModule(data) == Some((Module(FromBytes(data[..4]), data[10] as int, sizes, t.0, t.1, t.2), end))
  {
  }

  /** Reading a written header recovers the text offset, sizes, flags, values and names. */
  lemma HeaderReads(h: Header, data: seq<byte>, rest: seq<byte>)
    requires Valid(h) && data == ModuleHead(h, TextOffset(h)) + Tables(h) + rest
    ensures ReadModule(data) == Some((ModuleOf(h), rest))
  {
    var a, b, c := Long(TextOffset(h)), Long(Sum(h.lcs)), Word(StringSize(h));
    var desc, sizes, table := Descriptors(h.lcs), SizeBytes(h.lcs), SymbolTable(h);
    Ordered(a + b + c + [0, 0] + MAX_SIZES, desc, sizes, table, rest);
    HeadParts(a, b, c, [0, 0], MAX_SIZES, desc, sizes + (table + rest), data);
    DescriptorsRead(h.lcs);
    SizesRead(h.lcs, SizeCounts(desc), table + rest);
    TableReads(h, rest);
    ReadsInOrder(data, SizesOf(h.lcs), table + rest,
                 (h.modname, EntriesOf(h.symbols), NamesOf(h.symbols, h.textseg)), rest);
  }

  lemma DescriptorsRead(lcs: seq<nat>)
    requires |lcs| == NSEG
    ensures forall i | 0 <= i < NSEG :: SizeCounts(Descriptors(lcs))[i] == SizeCode(lcs[i])
  {
    forall i | 0 <= i < NSEG
      ensures SizeCounts(Descriptors(lcs))[i] == SizeCode(lcs[i])
    {
      DescriptorReads(lcs, i);
    }
  }

  lemma Ordered(head: seq<byte>, desc: seq<byte>, sizes: seq<byte>, table: seq<byte>, rest: seq<byte>)
    ensures head + (desc + (sizes + table)) + rest == head + (desc + (sizes + (table + rest)))
  {
  }

  // ---- the format

  /** The file header: "S1", one module, and the sum of these bytes. */
  lemma FileHeaderIs()
    ensures |FILE_HEADER| == 5 && FILE_HEADER[0] as char == 'S' && FILE_HEADER[1] as char == '1'
    ensures FILE_HEADER[2] as int * 256 + FILE_HEADER[3] as int == 1
    ensures FILE_HEADER[4] as int == (FILE_HEADER[0] as int + FILE_HEADER[1] as int + FILE_HEADER[2] as int + FILE_HEADER[3] as int) % 256
  {
  }

  /** Symbols of the text segment get its digit as a suffix, the others none. */
  lemma SuffixIs(s: Symbol, textseg: Option<nat>)
    ensures textseg.Some? && textseg.value < 16 && s.bits % 16 == textseg.value ==>
              FullName(s, textseg) == s.name + ['.' as byte, "0123456789ABCDEF"[textseg.value] as byte]
    ensures textseg.None? || textseg.value >= 16 || s.bits % 16 != textseg.value ==> FullName(s, textseg) == s.name
  {
  }
}
