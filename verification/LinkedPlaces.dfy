/** Where the linker puts what the assembler asked for: each part grows with the location
    counter of its segment, so a byte lies in its part at its location counter. */
module LinkedPlaces {
  import opened Prelude
  import opened ObjectCode
  import opened ObjectWriter
  import opened SkipMerging
  import opened ModuleLinker

  /** How far the parts of a module reach. */
  function CountersOf(st: Linked): (k: Counters)
    requires st.Valid()
    ensures k.Valid()
  {
    Counters(st.cur, seq(NSEG, s requires 0 <= s < NSEG => |st.parts[s]|))
  }

  lemma PutCounts(bytes: seq<byte>, st: Linked, m: Module)
    requires st.Valid() && m.Valid()
    ensures CountersOf(Put(bytes, st, m)) == CountersOf(st).Add(|bytes|)
  {
  }

  lemma StepCounts(r: Request, st: Linked, m: Module)
    requires st.Valid() && m.Valid() && Allowed(r) && LinkOne(r, st, m).Some?
    ensures CountersOf(LinkOne(r, st, m).value) == CountersOf(st).Move(r)
  {
    match r
    case Byte(b) => PutCounts([b], st, m);
    case Skip(n) => PutCounts(Fill(n, 0), st, m);
    case SetSeg(_) =>
    case Reloc(size, _, _, _) => PutCounts(ToBytes(RelocValue(r, Here(st, m), m), size), st, m);
  }

  /** Linking grows each part by as much as the requests move its counter. */
  lemma {:induction false} PartsFollow(rs: seq<Request>, st: Linked, m: Module)
    requires st.Valid() && m.Valid() && AllAllowed(rs) && LinkAll(rs, st, m).Some?
    ensures CountersOf(LinkAll(rs, st, m).value) == Moved(CountersOf(st), rs)
    decreases |rs|
  {
    if rs != [] {
      StepCounts(rs[0], st, m);
      PartsFollow(rs[1..], LinkOne(rs[0], st, m).value, m);
    }
  }

  /** When every run of skips fits, each linked part is as long as its location counter. */
  lemma PartsReachCounters(rs: seq<Request>, file: map<int, byte>, m: Module)
    requires m.Valid() && AllAllowed(rs) && RunsFit(0, rs)
    requires LinkAll(Merged(0, rs), Begun(file), m).Some?
    ensures CountersOf(LinkAll(Merged(0, rs), Begun(file), m).value) == Moved(START, rs)
  {
    MergedMoves(START, 0, rs);
    assert START.Add(0) == START;
    assert CountersOf(Begun(file)) == START;
    PartsFollow(Merged(0, rs), Begun(file), m);
  }

  lemma {:induction false} MergedBytes(data: seq<byte>, rest: seq<Request>)
    ensures Merged(0, ByteOps(data) + rest) == ByteOps(data) + Merged(0, rest)
    decreases |data|
  {
    if data == [] {
      assert ByteOps(data) + rest == rest;
      assert ByteOps(data) + Merged(0, rest) == Merged(0, rest);
    } else {
      var b := Byte(data[0]);
      assert ByteOps(data)[1..] == ByteOps(data[1..]);
      assert (ByteOps(data) + rest)[1..] == ByteOps(data[1..]) + rest;
      MergedBytes(data[1..], rest);
      assert SkipOps(0) + [b] == [b];
      assert [b] + ByteOps(data[1..]) == ByteOps(data);
      Assoc([b], ByteOps(data[1..]), Merged(0, rest));
    }
  }

  /** Bytes that follow the requests of `before` lie in the current part at the location
      counter that those leave. */
  lemma BytesLand(before: seq<Request>, data: seq<byte>, after: seq<Request>, file: map<int, byte>, m: Module, k: Counters)
    requires m.Valid() && data != [] && AllAllowed(before) && RunsFit(0, before) && k == Moved(START, before)
    requires LinkAll(Merged(0, before + (ByteOps(data) + after)), Begun(file), m).Some?
    ensures 0 <= k.Lc() && k.Lc() + |data| <= |LinkAll(Merged(0, before + (ByteOps(data) + after)), Begun(file), m).value.parts[k.cur]|
    ensures LinkAll(Merged(0, before + (ByteOps(data) + after)), Begun(file), m).value.parts[k.cur][k.Lc()..k.Lc() + |data|] == data
  {
    var all := Merged(0, before + (ByteOps(data) + after));
    MergedConcat(0, before, ByteOps(data) + after);
    MergedBytes(data, after);
    LinkAppend(Merged(0, before), ByteOps(data) + Merged(0, after), Begun(file), m);
    var first := LinkAll(Merged(0, before), Begun(file), m).value;
    PartsReachCounters(before, file, m);
    assert |first.parts[k.cur]| == CountersOf(first).lcs[k.cur];
    LinkAppend(ByteOps(data), Merged(0, after), first, m);
    LinkBytes(data, first, m);
    var second := Put(data, first, m);
    LinkGrows(Merged(0, after), second, m);
    var part := LinkAll(all, Begun(file), m).value.parts[k.cur];
    assert second.parts[k.cur] <= part;
    assert second.parts[k.cur] == first.parts[k.cur] + data;
  }
}
