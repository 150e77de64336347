/** Linking one module (ld/writex86.c:306-442, 467-482, 513-569): the command loop keeps
    sixteen segment cursors and one file position in step. */
module ModuleLinker {
  import opened Prelude
  import opened Memory
  import opened ObjectCode

  /** Where a module's parts go. `segadj` is file offset minus address; a NOLOAD part
      is discarded. `sizes` is what the object file's header declares. */
  datatype Module = Module(header: nat, segaddr: seq<int>, segadj: seq<int>, discard: seq<bool>, symbols: seq<int>,
                           sizes: seq<int>, pads: seq<nat>, fills: seq<byte>)
  {
    predicate Valid() {
      && |segaddr| == |segadj| == |discard| == NSEG
      && |sizes| == |pads| == |fills| == NSEG
    }

    /** The file offset of a part. */
    function Start(seg: nat): int
      requires Valid() && seg < NSEG
    {
      header + segaddr[seg] + segadj[seg]
    }
  }

  // ---- what linking means

  /** The current segment, the linked bytes of every segment, and the output file. */
  datatype Linked = Linked(cur: nat, parts: seq<seq<byte>>, file: map<int, byte>)
  {
    predicate Valid() {
      cur < NSEG && |parts| == NSEG
    }
  }

  function WriteOut(file: map<int, byte>, discard: bool, at: int, bytes: seq<byte>): map<int, byte> {
    if discard then file else Overwrite(file, at, bytes)
  }

  function Put(bytes: seq<byte>, st: Linked, m: Module): (r: Linked)
    requires st.Valid() && m.Valid()
    ensures r.Valid()
  {
    var part := st.parts[st.cur];
    Linked(st.cur, st.parts[st.cur := part + bytes],
           WriteOut(st.file, m.discard[st.cur], m.Start(st.cur) + |part|, bytes))
  }

  function Fill(n: nat, b: byte): (s: seq<byte>)
    ensures |s| == n
  {
    seq(n, _ => b)
  }

  /** A module's linking begins with empty parts. */
  function Begun(file: map<int, byte>): (st: Linked)
    ensures st.Valid()
  {
    Linked(0, seq(NSEG, _ => []), file)
  }

  /** What is stored for a relocation whose first byte has this address. */
  function RelocValue(r: Request, address: int, m: Module): int
    requires r.Reloc? && m.Valid() && Resolves(r, m)
  {
    var base := if r.target.InSegment? then m.segaddr[r.target.seg] else m.symbols[r.target.index];
    base + r.offset - (if r.pcr then address + r.size else 0)
  }

  predicate Resolves(r: Request, m: Module)
    requires r.Reloc?
  {
    if r.target.InSegment? then r.target.seg < NSEG else r.target.index < |m.symbols|
  }

  function Here(st: Linked, m: Module): int
    requires st.Valid() && m.Valid()
  {
    m.segaddr[st.cur] + |st.parts[st.cur]|
  }

  function LinkOne(r: Request, st: Linked, m: Module): (o: Option<Linked>)
    requires st.Valid() && m.Valid()
    ensures o.Some? ==> o.value.Valid()
  {
    match r
    case Byte(b) => Some(Put([b], st, m))
    case Skip(n) => if n < 0 then None else Some(Put(Fill(n, 0), st, m))
    case SetSeg(s) => if s < NSEG then Some(st.(cur := s)) else None
    case Reloc(size, _, _, _) =>
      if !Resolves(r, m) then None else Some(Put(ToBytes(RelocValue(r, Here(st, m), m), size), st, m))
  }

  function LinkAll(rs: seq<Request>, st: Linked, m: Module): (o: Option<Linked>)
    requires st.Valid() && m.Valid()
    ensures o.Some? ==> o.value.Valid()
    decreases |rs|
  {
    if rs == [] then Some(st)
    else
      var st' :- LinkOne(rs[0], st, m);
      LinkAll(rs[1..], st', m)
  }

  lemma {:induction false} LinkAppend(a: seq<Request>, b: seq<Request>, st: Linked, m: Module)
    requires st.Valid() && m.Valid()
    ensures LinkAll(a + b, st, m)
         == if LinkAll(a, st, m).None? then None else LinkAll(b, LinkAll(a, st, m).value, m)
    decreases |a|
  {
    if a == [] {
      assert a + b == b;
    } else {
      assert (a + b)[1..] == a[1..] + b;
      var next := LinkOne(a[0], st, m);
      if next.Some? {
        LinkAppend(a[1..], b, next.value, m);
      }
    }
  }

  lemma WriteOutAppend(file: map<int, byte>, discard: bool, start: int, part: seq<byte>, a: seq<byte>, b: seq<byte>)
    ensures WriteOut(WriteOut(file, discard, start + |part|, a), discard, start + |part + a|, b)
         == WriteOut(file, discard, start + |part|, a + b)
  {
    OverwriteAppend(file, start + |part|, a, b);
  }

  lemma UpdateTwice(parts: seq<seq<byte>>, k: nat, a: seq<byte>, b: seq<byte>)
    requires k < |parts|
    ensures parts[k := parts[k] + a][k := parts[k] + a + b] == parts[k := parts[k] + (a + b)]
  {
    assert parts[k] + a + b == parts[k] + (a + b);
  }

  lemma PutAppend(a: seq<byte>, b: seq<byte>, st: Linked, m: Module)
    requires st.Valid() && m.Valid()
    ensures Put(b, Put(a, st, m), m) == Put(a + b, st, m)
  {
    WriteOutAppend(st.file, m.discard[st.cur], m.Start(st.cur), st.parts[st.cur], a, b);
    UpdateTwice(st.parts, st.cur, a, b);
  }

  lemma {:induction false} LinkBytes(data: seq<byte>, st: Linked, m: Module)
    requires st.Valid() && m.Valid()
    ensures LinkAll(ByteOps(data), st, m) == Some(Put(data, st, m))
    decreases |data|
  {
    if data == [] {
      PutNothing(st, m);
    } else {
      assert ByteOps(data)[1..] == ByteOps(data[1..]);
      LinkBytes(data[1..], Put([data[0]], st, m), m);
      PutAppend([data[0]], data[1..], st, m);
      assert [data[0]] + data[1..] == data;
    }
  }

  lemma PutNothing(st: Linked, m: Module)
    requires st.Valid() && m.Valid()
    ensures Put([], st, m) == st
  {
    assert st.parts[st.cur] + [] == st.parts[st.cur];
    assert Overwrite(st.file, m.Start(st.cur) + |st.parts[st.cur]|, []) == st.file;
  }

  // ---- parts in the file

  /** The parts that are loaded, and not empty, do not overlap in the file. */
  ghost predicate PartsApart(parts: seq<seq<byte>>, m: Module)
    requires m.Valid() && |parts| == NSEG
  {
    forall s, t | 0 <= s < t < NSEG && !m.discard[s] && !m.discard[t] && parts[s] != [] && parts[t] != [] ::
      m.Start(s) + |parts[s]| <= m.Start(t) || m.Start(t) + |parts[t]| <= m.Start(s)
  }

  /** No loaded part covers this file offset. */
  ghost predicate Outside(i: int, parts: seq<seq<byte>>, m: Module)
    requires m.Valid() && |parts| == NSEG
  {
    forall s | 0 <= s < NSEG && !m.discard[s] :: i < m.Start(s) || m.Start(s) + |parts[s]| <= i
  }

  ghost predicate PartHolds(file: map<int, byte>, at: int, part: seq<byte>) {
    forall i | at <= i < at + |part| :: Fetch(file, i) == Some(part[i - at])
  }

  ghost predicate Holds(st: Linked, m: Module)
    requires st.Valid() && m.Valid()
  {
    forall s | 0 <= s < NSEG && !m.discard[s] :: PartHolds(st.file, m.Start(s), st.parts[s])
  }

  predicate Grows(a: Linked, b: Linked)
    requires a.Valid() && b.Valid()
  {
    forall s | 0 <= s < NSEG :: a.parts[s] <= b.parts[s]
  }

  lemma {:induction false} LinkGrows(rs: seq<Request>, st: Linked, m: Module)
    requires st.Valid() && m.Valid() && LinkAll(rs, st, m).Some?
    ensures Grows(st, LinkAll(rs, st, m).value)
    decreases |rs|
  {
    if rs != [] {
      LinkGrows(rs[1..], LinkOne(rs[0], st, m).value, m);
    }
  }

  lemma PutHolds(bytes: seq<byte>, st: Linked, m: Module, final: seq<seq<byte>>)
    requires st.Valid() && m.Valid() && Holds(st, m) && |final| == NSEG && PartsApart(final, m)
    requires forall s | 0 <= s < NSEG :: Put(bytes, st, m).parts[s] <= final[s]
    ensures Holds(Put(bytes, st, m), m)
  {
    var next := Put(bytes, st, m);
    forall s | 0 <= s < NSEG && !m.discard[s]
      ensures PartHolds(next.file, m.Start(s), next.parts[s])
    {
      if s == st.cur {
        OverwriteHolds(st.file, m.Start(s), st.parts[s], bytes);
      } else if !m.discard[st.cur] && bytes != [] && st.parts[s] != [] {
        var part := st.parts[st.cur];
        assert next.parts[s] <= final[s] && next.parts[st.cur] <= final[st.cur];
        OverwriteKeeps(st.file, m.Start(s), st.parts[s], m.Start(st.cur) + |part|, bytes);
      }
    }
  }

  lemma OverwriteHolds(file: map<int, byte>, at: int, part: seq<byte>, bytes: seq<byte>)
    requires PartHolds(file, at, part)
    ensures PartHolds(Overwrite(file, at + |part|, bytes), at, part + bytes)
  {
    var after := Overwrite(file, at + |part|, bytes);
    forall i | at <= i < at + |part + bytes|
      ensures Fetch(after, i) == Some((part + bytes)[i - at])
    {
      OverwriteFetch(file, at + |part|, bytes, i);
    }
  }

  lemma OverwriteKeeps(file: map<int, byte>, at: int, part: seq<byte>, to: int, bytes: seq<byte>)
    requires PartHolds(file, at, part) && (at + |part| <= to || to + |bytes| <= at)
    ensures PartHolds(Overwrite(file, to, bytes), at, part)
  {
    forall i | at <= i < at + |part|
      ensures Fetch(Overwrite(file, to, bytes), i) == Some(part[i - at])
    {
      OverwriteFetch(file, to, bytes, i);
    }
  }

  /** Every loaded part is in the file, at its own place, when the parts are apart. */
  lemma {:induction false} PartsAreWritten(rs: seq<Request>, st: Linked, m: Module)
    requires st.Valid() && m.Valid() && Holds(st, m)
    requires LinkAll(rs, st, m).Some? && PartsApart(LinkAll(rs, st, m).value.parts, m)
    ensures Holds(LinkAll(rs, st, m).value, m)
    decreases |rs|
  {
    if rs != [] {
      var next := LinkOne(rs[0], st, m).value;
      LinkGrows(rs[1..], next, m);
      StepHolds(rs[0], st, m, LinkAll(rs, st, m).value.parts);
      PartsAreWritten(rs[1..], next, m);
    }
  }

  lemma StepHolds(r: Request, st: Linked, m: Module, final: seq<seq<byte>>)
    requires st.Valid() && m.Valid() && Holds(st, m) && |final| == NSEG && PartsApart(final, m)
    requires LinkOne(r, st, m).Some?
    requires forall s | 0 <= s < NSEG :: LinkOne(r, st, m).value.parts[s] <= final[s]
    ensures Holds(LinkOne(r, st, m).value, m)
  {
    match r
    case Byte(b) => PutHolds([b], st, m, final);
    case Skip(n) => PutHolds(Fill(n, 0), st, m, final);
    case SetSeg(_) =>
    case Reloc(size, _, _, _) => PutHolds(ToBytes(RelocValue(r, Here(st, m), m), size), st, m, final);
  }

  // ---- the rest of the file

  lemma PutKeeps(bytes: seq<byte>, st: Linked, m: Module, final: seq<seq<byte>>, i: int)
    requires st.Valid() && m.Valid() && |final| == NSEG && Outside(i, final, m)
    requires Put(bytes, st, m).parts[st.cur] <= final[st.cur]
    ensures Fetch(Put(bytes, st, m).file, i) == Fetch(st.file, i)
  {
    OverwriteFetch(st.file, m.Start(st.cur) + |st.parts[st.cur]|, bytes, i);
  }

  lemma StepKeeps(r: Request, st: Linked, m: Module, final: seq<seq<byte>>, i: int)
    requires st.Valid() && m.Valid() && |final| == NSEG && Outside(i, final, m) && LinkOne(r, st, m).Some?
    requires forall s | 0 <= s < NSEG :: LinkOne(r, st, m).value.parts[s] <= final[s]
    ensures Fetch(LinkOne(r, st, m).value.file, i) == Fetch(st.file, i)
  {
    match r
    case Byte(b) => PutKeeps([b], st, m, final, i);
    case Skip(n) => PutKeeps(Fill(n, 0), st, m, final, i);
    case SetSeg(_) =>
    case Reloc(size, _, _, _) => PutKeeps(ToBytes(RelocValue(r, Here(st, m), m), size), st, m, final, i);
  }

  /** Linking changes nothing outside the loaded parts. */
  lemma {:induction false} LinkKeeps(rs: seq<Request>, st: Linked, m: Module, i: int)
    requires st.Valid() && m.Valid() && LinkAll(rs, st, m).Some? && Outside(i, LinkAll(rs, st, m).value.parts, m)
    ensures Fetch(LinkAll(rs, st, m).value.file, i) == Fetch(st.file, i)
    decreases |rs|
  {
    if rs != [] {
      var next := LinkOne(rs[0], st, m).value;
      LinkGrows(rs[1..], next, m);
      StepKeeps(rs[0], st, m, LinkAll(rs, st, m).value.parts, i);
      LinkKeeps(rs[1..], next, m, i);
    }
  }

  /** What is linked does not depend on what the file held before. */
  lemma {:induction false} PartsIgnoreFile(rs: seq<Request>, st: Linked, m: Module, file: map<int, byte>)
    requires st.Valid() && m.Valid()
    ensures LinkAll(rs, st, m).Some? == LinkAll(rs, st.(file := file), m).Some?
    ensures LinkAll(rs, st, m).Some? ==> LinkAll(rs, st, m).value.parts == LinkAll(rs, st.(file := file), m).value.parts
    decreases |rs|
  {
    if rs != [] {
      var next, other := LinkOne(rs[0], st, m), LinkOne(rs[0], st.(file := file), m);
      if next.Some? {
        assert next.value == other.value.(file := next.value.file);
        PartsIgnoreFile(rs[1..], next.value, m, other.value.file);
      }
    }
  }

  // ---- padding

  /** Each part has the declared size, and its padding is written after it. */
  function PadFrom(seg: nat, st: Linked, m: Module): (o: Option<Linked>)
    requires seg <= NSEG && st.Valid() && m.Valid()
    ensures o.Some? ==> o.value.Valid()
    decreases NSEG - seg
  {
    if seg == NSEG then Some(st)
    else if |st.parts[seg]| != m.sizes[seg] then None
    else if m.pads[seg] == 0 then PadFrom(seg + 1, st, m)
    else PadFrom(seg + 1, Put(Fill(m.pads[seg], m.fills[seg]), st.(cur := seg), m), m)
  }

  /** Padding accepts exactly the declared sizes, and extends each part by its padding. */
  lemma {:induction false} PadExtends(seg: nat, st: Linked, m: Module)
    requires seg <= NSEG && st.Valid() && m.Valid()
    ensures PadFrom(seg, st, m).Some? <==> forall s | seg <= s < NSEG :: |st.parts[s]| == m.sizes[s]
    ensures PadFrom(seg, st, m).Some? ==> forall s | 0 <= s < NSEG ::
              PadFrom(seg, st, m).value.parts[s] == if s < seg then st.parts[s] else st.parts[s] + Fill(m.pads[s], m.fills[s])
    decreases NSEG - seg
  {
    if seg < NSEG && |st.parts[seg]| == m.sizes[seg] {
      var next := if m.pads[seg] == 0 then st else Put(Fill(m.pads[seg], m.fills[seg]), st.(cur := seg), m);
      assert m.pads[seg] == 0 ==> st.parts[seg] + Fill(m.pads[seg], m.fills[seg]) == st.parts[seg];
      PadExtends(seg + 1, next, m);
    }
  }

  lemma {:induction false} PadsAreWritten(seg: nat, st: Linked, m: Module)
    requires seg <= NSEG && st.Valid() && m.Valid() && Holds(st, m)
    requires PadFrom(seg, st, m).Some? && PartsApart(PadFrom(seg, st, m).value.parts, m)
    ensures Holds(PadFrom(seg, st, m).value, m)
    decreases NSEG - seg
  {
    if seg < NSEG {
      if m.pads[seg] == 0 {
        PadsAreWritten(seg + 1, st, m);
      } else {
        var at := st.(cur := seg);
        var next := Put(Fill(m.pads[seg], m.fills[seg]), at, m);
        PadExtends(seg + 1, next, m);
        PutHolds(Fill(m.pads[seg], m.fills[seg]), at, m, PadFrom(seg, st, m).value.parts);
        PadsAreWritten(seg + 1, next, m);
      }
    }
  }

  /** Padding changes nothing outside the loaded parts. */
  lemma {:induction false} PadKeeps(seg: nat, st: Linked, m: Module, i: int)
    requires seg <= NSEG && st.Valid() && m.Valid()
    requires PadFrom(seg, st, m).Some? && Outside(i, PadFrom(seg, st, m).value.parts, m)
    ensures Fetch(PadFrom(seg, st, m).value.file, i) == Fetch(st.file, i)
    decreases NSEG - seg
  {
    if seg < NSEG {
      if m.pads[seg] == 0 {
        PadKeeps(seg + 1, st, m, i);
      } else {
        var at := st.(cur := seg);
        var next := Put(Fill(m.pads[seg], m.fills[seg]), at, m);
        PadExtends(seg + 1, next, m);
        PutKeeps(Fill(m.pads[seg], m.fills[seg]), at, m, PadFrom(seg, st, m).value.parts, i);
        PadKeeps(seg + 1, next, m, i);
      }
    }
  }

  /** Linking and padding a module that starts with empty parts: its loaded parts are in the
      file, and the rest of the file is as it was. */
  lemma ModuleIsWritten(rs: seq<Request>, file: map<int, byte>, m: Module, st: Linked, padded: Linked)
    requires m.Valid() && LinkAll(rs, Begun(file), m) == Some(st) && PadFrom(0, st, m) == Some(padded)
    requires PartsApart(padded.parts, m)
    ensures Holds(padded, m)
    ensures forall i | Outside(i, padded.parts, m) :: Fetch(padded.file, i) == Fetch(file, i)
  {
    PadExtends(0, st, m);
    PartsAreWritten(rs, Begun(file), m);
    PadsAreWritten(0, st, m);
    forall i | Outside(i, padded.parts, m)
      ensures Fetch(padded.file, i) == Fetch(file, i)
    {
      LinkKeeps(rs, Begun(file), m, i);
      PadKeeps(0, st, m, i);
    }
  }
}
