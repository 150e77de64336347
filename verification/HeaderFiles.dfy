/** The code that writes and reads object headers: the assembler's writer
    (as/genobj.c:248-501), the linker's reader (ld/readobj.c:113-171, 232-273, 317-346) and the
    archiver's reader (ar/ar.c:1537-1641). */
module HeaderFiles {
  import opened Prelude
  import opened ObjectCode
  import opened ObjectHeader

  // ---- the assembler

  /** How much of the string area some names take. */
  function NamesLength(ss: seq<Symbol>, textseg: Option<nat>): nat {
    if ss == [] then 0 else |FullName(ss[0], textseg)| + 1 + NamesLength(ss[1..], textseg)
  }

  lemma ConcatFirst(first: seq<byte>, more: seq<seq<byte>>)
    ensures Concat([first] + more) == first + Concat(more)
  {
    assert ([first] + more)[1..] == more;
  }

  lemma EntriesStep(done: seq<byte>, left: seq<Symbol>, offset: nat, textseg: Option<nat>)
    requires left != []
    ensures done + Concat(SymbolEntries(left, offset, textseg))
         == done + SymbolEntry(left[0], offset)
            + Concat(SymbolEntries(left[1..], offset + |FullName(left[0], textseg)| + 1, textseg))
  {
    var more := SymbolEntries(left[1..], offset + |FullName(left[0], textseg)| + 1, textseg);
    ConcatFirst(SymbolEntry(left[0], offset), more);
    Assoc(done, SymbolEntry(left[0], offset), Concat(more));
  }

  /** The string offset of each entry is where its name starts. */
  method WriteEntries(ss: seq<Symbol>, start: nat, textseg: Option<nat>) returns (out: seq<byte>)
    ensures out == Concat(SymbolEntries(ss, start, textseg))
  {
    out := [];
    var offset: nat, left := start, ss;
    while left != []
      invariant out + Concat(SymbolEntries(left, offset, textseg)) == Concat(SymbolEntries(ss, start, textseg))
      decreases |left|
    {
      EntriesStep(out, left, offset, textseg);
      out := out + SymbolEntry(left[0], offset);
      offset := offset + |FullName(left[0], textseg)| + 1;
      left := left[1..];
    }
  }

  lemma StringsStep(done: seq<byte>, left: seq<Symbol>, textseg: Option<nat>)
    requires left != []
    ensures done + Concat(Strings(left, textseg))
         == done + Text(FullName(left[0], textseg)) + Concat(Strings(left[1..], textseg))
  {
    ConcatFirst(Text(FullName(left[0], textseg)), Strings(left[1..], textseg));
    Assoc(done, Text(FullName(left[0], textseg)), Concat(Strings(left[1..], textseg)));
  }

  method WriteStrings(ss: seq<Symbol>, textseg: Option<nat>) returns (out: seq<byte>)
    ensures out == Concat(Strings(ss, textseg))
  {
    out := [];
    var left := ss;
    while left != []
      invariant out + Concat(Strings(left, textseg)) == Concat(Strings(ss, textseg))
      decreases |left|
    {
      StringsStep(out, left, textseg);
      out := out + Text(FullName(left[0], textseg));
      left := left[1..];
    }
  }

  /** From the highest segment down: two bits a segment, four segments a byte. */
  method WriteDescriptors(lcs: seq<nat>) returns (out: seq<byte>)
    requires |lcs| == NSEG
    ensures out == Descriptors(lcs)
  {
    out := [];
    var k := 4;
    while k > 0
      invariant 0 <= k <= 4 && out == Descriptors(lcs)[..4 - k]
    {
      k := k - 1;
      var b, sizebits, seg := 0, 128, 4 * k + 4;
      while seg > 4 * k
        invariant 4 * k <= seg <= 4 * k + 4
        invariant sizebits == if seg == 4 * k then 0 else 2 * Shift(seg - 4 * k - 1)
        invariant b == HighCodes(lcs, k, seg - 4 * k)
      {
        seg := seg - 1;
        if lcs[seg] != 0 {
          b := b + sizebits;
        }
        sizebits := sizebits / 4;
      }
      out := out + [b as byte];
    }
  }

  /** The codes of the segments of group k from position j up. */
  function HighCodes(lcs: seq<nat>, k: nat, j: nat): int
    requires |lcs| == NSEG && k < 4 && j <= 4
    decreases 4 - j
  {
    if j == 4 then 0 else SizeCode(lcs[4 * k + j]) * Shift(j) + HighCodes(lcs, k, j + 1)
  }

  method WriteSizes(lcs: seq<nat>) returns (out: seq<byte>)
    ensures out == SizeBytes(lcs)
  {
    out := [];
    var i := 0;
    while i < |lcs|
      invariant 0 <= i <= |lcs| && out + SizeBytes(lcs[i..]) == SizeBytes(lcs)
    {
      assert lcs[i..][1..] == lcs[i + 1..];
      if lcs[i] != 0 {
        Assoc(out, Word(lcs[i]), SizeBytes(lcs[i + 1..]));
        out := out + Word(lcs[i]);
      }
      i := i + 1;
    }
  }

  lemma {:induction false} EntriesLength(ss: seq<Symbol>, offset: nat, textseg: Option<nat>)
    ensures |Concat(SymbolEntries(ss, offset, textseg))| == EntrySizes(ss)
    decreases |ss|
  {
    if ss != [] {
      EntriesLength(ss[1..], offset + |FullName(ss[0], textseg)| + 1, textseg);
    }
  }

  function EntrySizes(ss: seq<Symbol>): nat {
    if ss == [] then 0 else 4 + OffsetSize(ss[0].value) + EntrySizes(ss[1..])
  }

  lemma {:induction false} StringsLength(ss: seq<Symbol>, textseg: Option<nat>)
    ensures |Concat(Strings(ss, textseg))| == NamesLength(ss, textseg)
    decreases |ss|
  {
    if ss != [] {
      StringsLength(ss[1..], textseg);
    }
  }

  /** The sizes of the symbol table and of the names, before anything is written. */
  method MeasureSymbols(ss: seq<Symbol>, textseg: Option<nat>) returns (symosiz: nat, strsiz: nat)
    ensures symosiz == EntrySizes(ss) && strsiz == NamesLength(ss, textseg)
  {
    symosiz, strsiz := 0, 0;
    var i := 0;
    while i < |ss|
      invariant 0 <= i <= |ss|
      invariant symosiz + EntrySizes(ss[i..]) == EntrySizes(ss) && strsiz + NamesLength(ss[i..], textseg) == NamesLength(ss, textseg)
    {
      assert ss[i..][1..] == ss[i + 1..];
      strsiz := strsiz + |FullName(ss[i], textseg)| + 1;
      symosiz := symosiz + 4 + (if ss[i].value >= 256 then 2 else if ss[i].value != 0 then 1 else 0);
      i := i + 1;
    }
  }

  method MeasureSegments(lcs: seq<nat>) returns (textlength: nat, segsizebytes: nat)
    ensures textlength == Sum(lcs) && segsizebytes == |SizeBytes(lcs)|
  {
    textlength, segsizebytes := 0, 0;
    var i := 0;
    while i < |lcs|
      invariant 0 <= i <= |lcs|
      invariant textlength + Sum(lcs[i..]) == Sum(lcs) && segsizebytes + |SizeBytes(lcs[i..])| == |SizeBytes(lcs)|
    {
      assert lcs[i..][1..] == lcs[i + 1..];
      if lcs[i] != 0 {
        textlength, segsizebytes := textlength + lcs[i], segsizebytes + 2;
      }
      i := i + 1;
    }
  }

  method WriteHead(h: Header) returns (out: seq<byte>)
    ensures out == ModuleHead(h, TextOffset(h))
  {
    EntriesLength(h.symbols, |h.modname| + 1, h.textseg);
    StringsLength(h.symbols, h.textseg);
    var symosiz, names := MeasureSymbols(h.symbols, h.textseg);
    var strsiz := |h.modname| + 1 + names;
    var textlength, segsizebytes := MeasureSegments(h.lcs);
    var offset := 5 + 4 + 4 + 2 + 1 + 1 + 4 + 4 + segsizebytes + 2 + symosiz + strsiz;
    assert strsiz == StringSize(h) && offset == TextOffset(h);
    out := Long(offset) + Long(textlength) + Word(strsiz) + [0, 0] + MAX_SIZES;
  }

  method WriteTables(h: Header) returns (out: seq<byte>)
    requires |h.lcs| == NSEG
    ensures out == Tables(h)
  {
    var desc := WriteDescriptors(h.lcs);
    var sizes := WriteSizes(h.lcs);
    var entries := WriteEntries(h.symbols, |h.modname| + 1, h.textseg);
    var strings := WriteStrings(h.symbols, h.textseg);
    out := desc + (sizes + (Word(|h.symbols|) + entries + Text(h.modname) + strings));
  }

  /** `objheader`: the stored text offset is computed before the tables are written. */
  method WriteHeader(h: Header) returns (out: seq<byte>)
    requires Valid(h)
    ensures out == HeaderBytes(h) && |out| == TextOffset(h)
  {
    TextStartsAfterHeader(h);
    var head := WriteHead(h);
    var tables := WriteTables(h);
    out := FILE_HEADER + (head + tables);
  }

  // ---- the readers

  /** Values that were read so far, before the rest. */
  function Then<T>(done: seq<T>, r: Reading<seq<T>>): Reading<seq<T>> {
    if r.None? then None else Some((done + r.value.0, r.value.1))
  }

  lemma ThenOne<T>(done: seq<T>, x: T, r: Reading<seq<T>>)
    ensures Then(done, Then([x], r)) == Then(done + [x], r)
  {
    if r.Some? {
      assert done + ([x] + r.value.0) == done + [x] + r.value.0;
    }
  }

  /** `obj_number` */
  method Number(data: seq<byte>, p: nat, n: nat) returns (value: nat)
    requires p + n <= |data|
    ensures value == FromBytes(data[p..p + n])
  {
    value := 0;
    var i := 0;
    while i < n
      invariant 0 <= i <= n && value == FromBytes(data[p..p + i])
    {
      assert data[p..p + i + 1][..i] == data[p..p + i];
      value := value * 256 + data[p + i] as int;
      i := i + 1;
    }
  }

  /** A reader that started somewhere in data got what the format says and stopped at p, or
      found the file too short. */
  predicate Got<T(==)>(value: Option<T>, p: nat, data: seq<byte>, r: Reading<T>) {
    if r.None? then value.None? else value == Some(r.value.0) && p <= |data| && data[p..] == r.value.1
  }

  method ReadIn(data: seq<byte>, p: nat, n: nat) returns (bytes: Option<seq<byte>>, q: nat)
    requires p <= |data|
    ensures Got(bytes, q, data, ReadBytes(n, data[p..]))
  {
    if p + n > |data| {
      return None, p;
    }
    assert data[p..][..n] == data[p..p + n];
    bytes, q := Some(data[p..p + n]), p + n;
  }

  method ReadSize(data: seq<byte>, p: nat, n: nat) returns (value: Option<nat>, q: nat)
    requires p <= |data|
    ensures Got(value, q, data, ReadNumber(n, data[p..]))
  {
    if p + n > |data| {
      return None, p;
    }
    var v := Number(data, p, n);
    assert data[p..][..n] == data[p..p + n];
    value, q := Some(v), p + n;
  }

  lemma ThenNothing<T>(r: Reading<seq<T>>)
    ensures Then([], r) == r
  {
    if r.Some? {
      assert [] + r.value.0 == r.value.0;
    }
  }

  lemma ThenEnd<T>(done: seq<T>, rest: seq<byte>)
    ensures Then(done, Some(([], rest))) == Some((done, rest))
  {
    assert done + [] == done;
  }

  lemma NameStep(data: seq<byte>, p: nat, s: Name)
    requires p < |data| && data[p] != 0
    ensures Then(s, ReadName(data[p..])) == Then(s + [data[p]], ReadName(data[p + 1..]))
  {
    assert data[p..][1..] == data[p + 1..];
    ThenOne(s, data[p], ReadName(data[p + 1..]));
  }

  /** `readstring`, and the search for a NUL */
  method ReadString(data: seq<byte>, p: nat) returns (name: Option<Name>, q: nat)
    requires p <= |data|
    ensures Got(name, q, data, ReadName(data[p..]))
  {
    ghost var goal := ReadName(data[p..]);
    var s: Name := [];
    q := p;
    ThenNothing(goal);
    while q < |data| && data[q] != 0
      invariant p <= q <= |data| && goal == Then(s, ReadName(data[q..]))
    {
      NameStep(data, q, s);
      s, q := s + [data[q]], q + 1;
    }
    if q == |data| {
      return None, q;
    }
    assert data[q..][1..] == data[q + 1..];
    ThenEnd(s, data[q + 1..]);
    name, q := Some(s), q + 1;
  }

  /** Numbers of these sizes are left to be read. */
  ghost predicate LeavesSizes(goal: Reading<seq<nat>>, done: seq<nat>, counts: seq<nat>, rest: seq<byte>) {
    goal == Then(done, ReadNumbers(counts, rest))
  }

  method NextSize(data: seq<byte>, p: nat, done: seq<nat>, count: nat, ghost counts: seq<nat>, ghost goal: Reading<seq<nat>>)
    returns (more: Option<seq<nat>>, q: nat)
    requires p <= |data| && counts != [] && counts[0] == count && LeavesSizes(goal, done, counts, data[p..])
    ensures more.None? ==> goal.None?
    ensures more.Some? ==> q <= |data| && LeavesSizes(goal, more.value, counts[1..], data[q..])
  {
    var n: Option<nat>;
    n, q := ReadSize(data, p, count);
    if n.None? {
      return None, q;
    }
    ThenOne(done, n.value, ReadNumbers(counts[1..], data[q..]));
    more := Some(done + [n.value]);
  }

  /** The sizes of `reedmodheader` */
  method ReadSegments(data: seq<byte>, p: nat, desc: seq<byte>) returns (sizes: Option<seq<nat>>, q: nat)
    requires p <= |data| && |desc| == 4
    ensures Got(sizes, q, data, ReadNumbers(SizeCounts(desc), data[p..]))
  {
    ghost var counts := SizeCounts(desc);
    ghost var goal := ReadNumbers(counts, data[p..]);
    ThenNothing(goal);
    assert counts[0..] == counts;
    sizes, q := Some([]), p;
    var seg := 0;
    while seg < NSEG && sizes.Some?
      invariant 0 <= seg <= NSEG == |counts|
      invariant if sizes.Some? then q <= |data| && LeavesSizes(goal, sizes.value, counts[seg..], data[q..]) else goal.None?
    {
      assert counts[seg..][1..] == counts[seg + 1..];
      sizes, q := NextSize(data, q, sizes.value, SizeCount(desc, seg), counts[seg..], goal);
      seg := seg + 1;
    }
    if sizes.Some? {
      ThenEnd(sizes.value, data[q..]);
    }
  }

  method ReadSymbol(data: seq<byte>, p: nat) returns (e: Option<Entry>, q: nat)
    requires p <= |data|
    ensures Got(e, q, data, ReadEntry(data[p..]))
  {
    if p + 4 > |data| {
      return None, p;
    }
    var flags := Number(data, p + 2, 2);
    assert data[p..][2..4] == data[p + 2..p + 4];
    var n := ConvertSize(flags / 0x4000 % 4);
    q := p + 4 + n;
    if q > |data| {
      return None, p;
    }
    var value := Number(data, p + 4, n);
    assert data[p..][4..4 + n] == data[p + 4..q] && data[p..][4 + n..] == data[q..];
    e := Some(Entry(flags, value));
  }

  /** The value at p is x, and ends at q. */
  ghost predicate Reads<T(!new)>(read: seq<byte> -> Reading<T>, data: seq<byte>, p: nat, x: T, q: nat) {
    p <= |data| && q <= |data| && read(data[p..]) == Some((x, data[q..]))
  }

  /** No value can be read at p. */
  ghost predicate Fails<T(!new)>(read: seq<byte> -> Reading<T>, data: seq<byte>, p: nat) {
    p <= |data| && read(data[p..]).None?
  }

  /** Values that follow one another from ps[0] on. */
  ghost predicate InRow<T(!new)>(read: seq<byte> -> Reading<T>, data: seq<byte>, ps: seq<nat>, xs: seq<T>) {
    |ps| == |xs| + 1 && ps[0] <= |data| && forall i | 0 <= i < |xs| :: Reads(read, data, ps[i], xs[i], ps[i + 1])
  }

  /** Values in a row are what a reader of the format gets. */
  lemma {:induction false} RowReads<T(!new)>(read: seq<byte> -> Reading<T>, data: seq<byte>, ps: seq<nat>, xs: seq<T>, n: nat)
    requires InRow(read, data, ps, xs) && n >= |xs| && (n > |xs| ==> Fails(read, data, ps[|xs|]))
    ensures n == |xs| ==> ps[n] <= |data| && ReadMany(read, n, data[ps[0]..]) == Some((xs, data[ps[n]..]))
    ensures n > |xs| ==> ReadMany(read, n, data[ps[0]..]).None?
    decreases |xs|
  {
    if xs != [] {
      assert Reads(read, data, ps[0], xs[0], ps[1]);
      RowReads(read, data, ps[1..], xs[1..], n - 1);
      assert [xs[0]] + xs[1..] == xs;
    }
  }

  lemma Found<T(!new)>(read: seq<byte> -> Reading<T>, data: seq<byte>, p: nat, x: Option<T>, q: nat)
    requires p <= |data| && Got(x, q, data, read(data[p..]))
    ensures if x.Some? then Reads(read, data, p, x.value, q) else Fails(read, data, p)
  {
  }

  method SymbolRow(data: seq<byte>, p: nat, n: nat) returns (entries: Option<seq<Entry>>, q: nat, ghost ps: seq<nat>, ghost es: seq<Entry>)
    requires p <= |data|
    ensures InRow(ReadEntry, data, ps, es) && ps[0] == p
    ensures if entries.Some? then entries.value == es && |es| == n && q == ps[n] else |es| < n && Fails(ReadEntry, data, ps[|es|])
  {
    entries, q, ps, es := Some([]), p, [p], [];
    var i := 0;
    while i < n
      invariant 0 <= i <= n && |es| == i && entries == Some(es)
      invariant InRow(ReadEntry, data, ps, es) && ps[0] == p && ps[i] == q <= |data|
    {
      var e: Option<Entry>;
      ghost var at := q;
      e, q := ReadSymbol(data, q);
      Found(ReadEntry, data, at, e, q);
      if e.None? {
        return None, q, ps, es;
      }
      ps, es := ps + [q], es + [e.value];
      entries, i := Some(entries.value + [e.value]), i + 1;
    }
  }

  method ReadSymbols(data: seq<byte>, p: nat, n: nat) returns (entries: Option<seq<Entry>>, q: nat)
    requires p <= |data|
    ensures Got(entries, q, data, ReadMany(ReadEntry, n, data[p..]))
  {
    ghost var ps, es;
    entries, q, ps, es := SymbolRow(data, p, n);
    RowReads(ReadEntry, data, ps, es, n);
  }

  method StringRow(data: seq<byte>, p: nat, n: nat) returns (names: Option<seq<Name>>, q: nat, ghost ps: seq<nat>, ghost xs: seq<Name>)
    requires p <= |data|
    ensures InRow(ReadName, data, ps, xs) && ps[0] == p
    ensures if names.Some? then names.value == xs && |xs| == n && q == ps[n] else |xs| < n && Fails(ReadName, data, ps[|xs|])
  {
    names, q, ps, xs := Some([]), p, [p], [];
    var i := 0;
    while i < n
      invariant 0 <= i <= n && |xs| == i && names == Some(xs)
      invariant InRow(ReadName, data, ps, xs) && ps[0] == p && ps[i] == q <= |data|
    {
      var x: Option<Name>;
      ghost var at := q;
      x, q := ReadString(data, q);
      Found(ReadName, data, at, x, q);
      if x.None? {
        return None, q, ps, xs;
      }
      ps, xs := ps + [q], xs + [x.value];
      names, i := Some(names.value + [x.value]), i + 1;
    }
  }

  method ReadStrings(data: seq<byte>, p: nat, n: nat) returns (names: Option<seq<Name>>, q: nat)
    requires p <= |data|
    ensures Got(names, q, data, ReadMany(ReadName, n, data[p..]))
  {
    ghost var ps, xs;
    names, q, ps, xs := StringRow(data, p, n);
    RowReads(ReadName, data, ps, xs, n);
  }

  /** `readmodule`: the symbol table and the strings */
  method ReadSymbolTable(data: seq<byte>, p: nat) returns (t: Option<(Name, seq<Entry>, seq<Name>)>, q: nat)
    requires p <= |data|
    ensures Got(t, q, data, ReadTable(data[p..]))
  {
    var count: Option<nat>;
    count, q := ReadSize(data, p, 2);
    if count.None? {
      return None, q;
    }
    var entries: Option<seq<Entry>>;
    entries, q := ReadSymbols(data, q, count.value);
    if entries.None? {
      return None, q;
    }
    var modname: Option<Name>;
    modname, q := ReadString(data, q);
    if modname.None? {
      return None, q;
    }
    var names: Option<seq<Name>>;
    names, q := ReadStrings(data, q, count.value);
    if names.None? {
      return None, q;
    }
    t := Some((modname.value, entries.value, names.value));
  }

  /** `reedmodheader` and `readmodule` */
  method ReadModuleAt(data: seq<byte>, p: nat) returns (m: Option<Module>, q: nat)
    requires p <= |data|
    ensures Got(m, q, data, ReadModule(data[p..]))
  {
    if p + 20 > |data| {
      return None, p;
    }
    var textoffset := Number(data, p, 4);
    var desc := data[p + 16..p + 20];
    assert data[p..][..4] == data[p..p + 4] && data[p..][16..20] == desc && data[p..][20..] == data[p + 20..];
    var sizes: Option<seq<nat>>, t: Option<(Name, seq<Entry>, seq<Name>)>;
    sizes, q := ReadSegments(data, p + 20, desc);
    if sizes.None? {
      return None, q;
    }
    t, q := ReadSymbolTable(data, q);
    if t.None? {
      return None, q;
    }
    m := Some(Module(textoffset, data[p + 10] as int, sizes.value, t.value.0, t.value.1, t.value.2));
  }
}
