/** Which names an object file makes available (ar/ar.c:1550-1641): the archiver's own reader
    lists exactly the exported and the common symbols that the assembler wrote. */
module ArchiveSymbols {
  import opened Prelude
  import opened ObjectCode
  import opened ObjectHeader
  import opened HeaderFiles

  predicate Bit(flags: nat, value: pos) {
    flags / value % 2 == 1
  }

  /** Exported and not imported, or imported with a size. */
  predicate Available(e: Entry) {
    (Bit(e.flags, 0x80) && !Bit(e.flags, 0x40)) || (Bit(e.flags, 0x40) && e.value != 0)
  }

  function AvailableNames(entries: seq<Entry>, names: seq<Name>): seq<Name> {
    if entries == [] || names == [] then []
    else (if Available(entries[0]) then [names[0]] else []) + AvailableNames(entries[1..], names[1..])
  }

  function AllAvailable(ms: seq<Module>): seq<Name> {
    if ms == [] then [] else AvailableNames(ms[0].entries, ms[0].names) + AllAvailable(ms[1..])
  }

  /** The magic number and the checksum of a file. */
  predicate IsObjectFile(data: seq<byte>) {
    && |data| >= 5 && data[0] == 83 && data[1] == 49
    && (data[0] as int + data[1] as int + data[2] as int + data[3] as int) % 256 == data[4] as int
  }

  function ModuleCount(data: seq<byte>): nat
    requires |data| >= 5
  {
    FromBytes(data[2..4])
  }

  /** What a reader of the format lists. */
  function Listed(data: seq<byte>): Option<seq<Name>> {
    if !IsObjectFile(data) then None
    else NamesIn(ReadMany(ReadModule, ModuleCount(data), data[5..]))
  }

  function NamesIn(r: Reading<seq<Module>>): Option<seq<Name>> {
    if r.None? then None else Some(AllAvailable(r.value.0))
  }

  // ---- the archiver

  method SelectNames(entries: seq<Entry>, names: seq<Name>, before: seq<Name>) returns (list: seq<Name>)
    requires |entries| == |names|
    ensures list == before + AvailableNames(entries, names)
  {
    list := before;
    var i := 0;
    assert entries[0..] == entries && names[0..] == names;
    while i < |entries|
      invariant 0 <= i <= |entries| && list + AvailableNames(entries[i..], names[i..]) == before + AvailableNames(entries, names)
    {
      assert entries[i..][1..] == entries[i + 1..] && names[i..][1..] == names[i + 1..];
      if Available(entries[i]) {
        list := list + [names[i]];
      }
      i := i + 1;
    }
  }

  lemma {:induction false} ManyLength<T>(read: seq<byte> -> Reading<T>, n: nat, data: seq<byte>)
    requires ReadMany(read, n, data).Some?
    ensures |ReadMany(read, n, data).value.0| == n
  {
    if n > 0 {
      ManyLength(read, n - 1, read(data).value.1);
    }
  }

  /** One module: its fixed part and sizes are skipped, its symbols are listed. */
  method ListModule(data: seq<byte>, p: nat, before: seq<Name>) returns (list: Option<seq<Name>>, q: nat, ghost m: Module)
    requires p <= |data|
    ensures list.None? ==> Fails(ReadModule, data, p)
    ensures list.Some? ==> Reads(ReadModule, data, p, m, q) && list.value == before + AvailableNames(m.entries, m.names)
  {
    m := Module(0, 0, [], [], [], []);
    if p + 20 > |data| {
      return None, p, m;
    }
    assert data[p..][16..20] == data[p + 16..p + 20] && data[p..][20..] == data[p + 20..];
    var sizes: Option<seq<nat>>, t: Option<(Name, seq<Entry>, seq<Name>)>;
    sizes, q := ReadSegments(data, p + 20, data[p + 16..p + 20]);
    if sizes.None? {
      return None, q, m;
    }
    ghost var table := data[q..];
    t, q := ReadSymbolTable(data, q);
    if t.None? {
      return None, q, m;
    }
    TableCounts(table);
    var names := SelectNames(t.value.1, t.value.2, before);
    list := Some(names);
    m := ReadModule(data[p..]).value.0;
  }

  lemma TableCounts(data: seq<byte>)
    requires ReadTable(data).Some?
    ensures |ReadTable(data).value.0.1| == |ReadTable(data).value.0.2|
  {
    var count := ReadNumber(2, data).value;
    ManyLength(ReadEntry, count.0, count.1);
    var entries := ReadMany(ReadEntry, count.0, count.1).value;
    ManyLength(ReadName, count.0, ReadName(entries.1).value.1);
  }

  lemma {:induction false} AllAvailableAppend(a: seq<Module>, m: Module)
    ensures AllAvailable(a + [m]) == AllAvailable(a) + AvailableNames(m.entries, m.names)
    decreases |a|
  {
    if a == [] {
      assert a + [m] == [m] && [m][1..] == [];
    } else {
      assert (a + [m])[1..] == a[1..] + [m];
      AllAvailableAppend(a[1..], m);
    }
  }

  /** `read_object_symbols` */
  method ReadObjectSymbols(data: seq<byte>) returns (list: Option<seq<Name>>)
    ensures list == Listed(data)
  {
    if !IsObjectFile(data) {
      return None;
    }
    var nmodules := Number(data, 2, 2);
    ghost var ps, ms;
    list, ps, ms := ListModules(data, 5, nmodules);
    RowReads(ReadModule, data, ps, ms, nmodules);
  }

  method ListModules(data: seq<byte>, start: nat, nmodules: nat)
    returns (list: Option<seq<Name>>, ghost ps: seq<nat>, ghost ms: seq<Module>)
    requires start <= |data|
    ensures InRow(ReadModule, data, ps, ms) && ps[0] == start
    ensures if list.Some? then |ms| == nmodules && list.value == AllAvailable(ms)
            else |ms| < nmodules && Fails(ReadModule, data, ps[|ms|])
  {
    var p := start;
    ps, ms, list := [start], [], Some([]);
    var n := nmodules;
    while n > 0
      invariant 0 <= n && |ms| + n == nmodules && list == Some(AllAvailable(ms))
      invariant InRow(ReadModule, data, ps, ms) && ps[0] == start && ps[|ms|] == p <= |data|
    {
      ghost var m;
      list, p, m := ListModule(data, p, list.value);
      if list.None? {
        return;
      }
      AllAvailableAppend(ms, m);
      ps, ms := ps + [p], ms + [m];
      n := n - 1;
    }
  }

  // ---- what the assembler wrote

  predicate Exported(s: Symbol) {
    Bit(s.bits, 0x80)
  }

  predicate ImportedSymbol(s: Symbol) {
    Bit(s.bits, 0x40)
  }

  /** The names that other modules may use, in the order of the symbol table. */
  function ExportedNames(ss: seq<Symbol>, textseg: Option<nat>): seq<Name> {
    if ss == [] then []
    else (if (Exported(ss[0]) && !ImportedSymbol(ss[0])) || (ImportedSymbol(ss[0]) && ss[0].value % WORD != 0)
          then [FullName(ss[0], textseg)] else [])
         + ExportedNames(ss[1..], textseg)
  }

  lemma FlagBits(s: Symbol)
    requires s.bits < 0x4000
    ensures Bit(FlagWord(s), 0x80) == Exported(s) && Bit(FlagWord(s), 0x40) == ImportedSymbol(s)
  {
    var k := OffsetSize(s.value);
    assert FlagWord(s) / 0x80 == 128 * k + s.bits / 0x80;
    assert FlagWord(s) / 0x40 == 256 * k + s.bits / 0x40;
  }

  lemma {:induction false} ListsExported(ss: seq<Symbol>, textseg: Option<nat>)
    requires forall i | 0 <= i < |ss| :: ss[i].bits < 0x4000
    ensures AvailableNames(EntriesOf(ss), NamesOf(ss, textseg)) == ExportedNames(ss, textseg)
  {
    if ss != [] {
      FlagBits(ss[0]);
      ListsExported(ss[1..], textseg);
    }
  }

  lemma ListedOne(data: seq<byte>, body: seq<byte>, m: Module, rest: seq<byte>)
    requires data == FILE_HEADER + body && ReadModule(body) == Some((m, rest))
    ensures Listed(data) == Some(AvailableNames(m.entries, m.names))
  {
    FileStart(data, body);
    OneModule(body, m, rest);
  }

  /** The archiver lists exactly the exported and the common names, in order. */
  lemma ArchiveListsExports(h: Header, rest: seq<byte>)
    requires Valid(h)
    ensures Listed(HeaderBytes(h) + rest) == Some(ExportedNames(h.symbols, h.textseg))
  {
    var header := ModuleHead(h, TextOffset(h)) + Tables(h);
    Assoc(FILE_HEADER, header, rest);
    HeaderReads(h, header + rest, rest);
    ListedOne(HeaderBytes(h) + rest, header + rest, ModuleOf(h), rest);
    ListsExported(h.symbols, h.textseg);
  }

  lemma FileStart(data: seq<byte>, body: seq<byte>)
    requires data == FILE_HEADER + body
    ensures IsObjectFile(data) && ModuleCount(data) == 1 && data[5..] == body
  {
    assert data[2..4] == [0, 1] && [0, 1][..1] == [0 as byte];
    assert FromBytes([0]) == 0 && FromBytes([0, 1]) == 1;
  }

  lemma OneModule(body: seq<byte>, m: Module, rest: seq<byte>)
    requires ReadModule(body) == Some((m, rest))
    ensures ReadMany(ReadModule, 1, body) == Some(([m], rest))
    ensures AllAvailable([m]) == AvailableNames(m.entries, m.names)
  {
    var one := 1;
    ManyRest(ReadModule, one, body, m, rest);
    assert [m][1..] == [];
  }

  lemma ManyRest<T>(read: seq<byte> -> Reading<T>, n: nat, data: seq<byte>, x: T, rest: seq<byte>)
    requires n == 1 && read(data) == Some((x, rest))
    ensures ReadMany(read, n, data) == Some(([x], rest))
  {
    assert ReadMany(read, n - 1, rest) == Some(([], rest));
    assert [x] + [] == [x];
  }
}
