/** The linker's command loop as it runs (ld/writex86.c:306-442, 467-482, 513-569), over
    its globals: curseg, spos, segpos[], relocsize and the output position. */
module LinkerEngine {
  import opened Prelude
  import opened Memory
  import opened ObjectCode
  import opened ModuleLinker

  /** What one command makes of the state. */
  ghost function AfterCommand(c: Option<Command>, st: Linked, m: Module): (o: Option<Linked>)
    requires st.Valid() && m.Valid()
    ensures o.Some? ==> o.value.Valid()
  {
    if c.None? then None else LinkAll(c.value.ops, st, m)
  }

  /** What the whole stream makes of the state. */
  ghost function AfterStream(rs: Option<seq<Request>>, st: Linked, m: Module): (o: Option<Linked>)
    requires st.Valid() && m.Valid()
    ensures o.Some? ==> o.value.Valid()
  {
    if rs.None? then None else LinkAll(rs.value, st, m)
  }

  lemma AfterBefore(c: Command, rest: Option<seq<Request>>, st: Linked, m: Module)
    requires st.Valid() && m.Valid()
    ensures AfterStream(Before(c.ops, rest), st, m).Some? ==> AfterCommand(Some(c), st, m).Some?
    ensures AfterCommand(Some(c), st, m).Some? ==>
              AfterStream(Before(c.ops, rest), st, m) == AfterStream(rest, AfterCommand(Some(c), st, m).value, m)
  {
    if rest.Some? {
      LinkAppend(c.ops, rest.value, st, m);
    }
  }

  lemma LinkSingle(r: Request, st: Linked, m: Module)
    requires st.Valid() && m.Valid()
    ensures LinkAll([r], st, m) == LinkOne(r, st, m)
  {
  }

  class Linker {
    const m: Module
    const input: seq<byte>
    var pos: nat
    var curseg: nat
    var spos: int
    var segpos: seq<int>
    var relocsize: nat
    var file: map<int, byte>
    var cursor: int

    constructor (m: Module, input: seq<byte>, file: map<int, byte>)
      ensures this.m == m && this.input == input && this.file == file && pos == 0
    {
      this.m, this.input, this.file := m, input, file;
      pos, curseg, spos, segpos, relocsize, cursor := 0, 0, 0, [], 0, 0;
    }

    /** The globals stand for st. The file position is header + spos + segadj whenever
        the current segment is written. */
    ghost predicate Tracks(st: Linked)
      reads this
    {
      && m.Valid() && st.Valid() && |segpos| == NSEG
      && curseg == st.cur && spos == Here(st, m) && file == st.file
      && (forall s | 0 <= s < NSEG && s != curseg :: segpos[s] == m.segaddr[s] + |st.parts[s]|)
      && (!m.discard[curseg] ==> cursor == m.header + spos + m.segadj[curseg])
    }

    method SeekOut()
      requires m.Valid() && curseg < NSEG
      modifies this`cursor
      ensures !m.discard[curseg] ==> cursor == m.header + spos + m.segadj[curseg]
    {
      if !m.discard[curseg] {
        cursor := m.header + spos + m.segadj[curseg];
      }
    }

    method Begin()
      requires m.Valid()
      modifies this`curseg, this`spos, this`segpos, this`relocsize, this`cursor
      ensures Tracks(Begun(file)) && relocsize == 2
    {
      segpos, curseg := m.segaddr, 0;
      spos := segpos[curseg];
      SeekOut();
      relocsize := 2;
    }

    method SetSegment(newseg: nat, ghost st: Linked)
      requires Tracks(st) && newseg < NSEG
      modifies this`curseg, this`spos, this`segpos, this`cursor
      ensures Tracks(st.(cur := newseg))
    {
      if newseg != curseg {
        segpos := segpos[curseg := spos];
        curseg := newseg;
        spos := segpos[curseg];
        SeekOut();
      }
    }

    /** Write to the output at the file position. */
    method WriteOutput(bytes: seq<byte>)
      modifies this`file, this`cursor
      ensures file == Overwrite(old(file), old(cursor), bytes) && cursor == old(cursor) + |bytes|
    {
      file, cursor := Overwrite(file, cursor, bytes), cursor + |bytes|;
    }

    method SegWrite(bytes: seq<byte>, ghost st: Linked)
      requires Tracks(st)
      modifies this`spos, this`file, this`cursor
      ensures Tracks(Put(bytes, st, m))
    {
      if !m.discard[curseg] {
        WriteOutput(bytes);
      }
      spos := spos + |bytes|;
    }

    /** Used for skips, with zeros, and for padding. */
    method WriteFill(count: nat, b: byte, ghost st: Linked)
      requires Tracks(st)
      modifies this`spos, this`file, this`cursor
      ensures Tracks(Put(Fill(count, b), st, m))
    {
      ghost var at := cursor;
      ghost var bytes := Fill(count, b);
      spos := spos + count;
      if !m.discard[curseg] {
        var i := 0;
        while i < count
          invariant 0 <= i <= count && cursor == at + i && spos == old(spos) + count
          invariant file == Overwrite(old(file), at, bytes[..i])
        {
          OverwriteAppend(old(file), at, bytes[..i], [b]);
          assert bytes[..i] + [b] == bytes[..i + 1];
          WriteOutput([b]);
          i := i + 1;
        }
        assert bytes[..count] == bytes;
      }
    }

    /** This many bytes of input, or None at a premature end. */
    method ReadIn(count: nat) returns (bytes: Option<seq<byte>>)
      requires pos <= |input|
      modifies this`pos
      ensures old(pos) + count <= |input| ==> bytes == Some(input[old(pos)..old(pos) + count]) && pos == old(pos) + count
      ensures old(pos) + count > |input| ==> bytes == None && pos == old(pos)
    {
      if pos + count > |input| {
        return None;
      }
      bytes := Some(input[pos..pos + count]);
      pos := pos + count;
    }

    /** The command at the read position. */
    ghost function Current(): Option<Command>
      requires pos < |input|
      reads this
    {
      Next(input[pos..], relocsize)
    }

    /** The command was carried out in st, or refused. */
    twostate predicate Carried(ok: bool, st: Linked)
      requires m.Valid() && st.Valid() && old(pos) < |input|
      reads this
    {
      && ok == AfterCommand(old(Current()), st, m).Some?
      && (ok ==>
            && pos == old(pos) + old(Current()).value.length && pos <= |input| && relocsize == old(Current()).value.relsize
            && Tracks(AfterCommand(old(Current()), st, m).value))
    }

    method DoSkip(size: nat, ghost st: Linked) returns (ok: bool)
      requires Tracks(st) && pos < |input| && Current() == SkipCommand(input[pos..], size, relocsize)
      modifies this
      ensures Carried(ok, st)
    {
      pos := pos + 1;
      var bytes := ReadIn(size);
      if bytes.None? {
        return false;
      }
      assert input[old(pos)..][1..1 + size] == bytes.value;
      if Signed(bytes.value) < 0 {
        return false;
      }
      WriteFill(Signed(bytes.value), 0, st);
      if Signed(bytes.value) == 0 {
        assert Fill(0, 0) == [];
        PutNothing(st, m);
      } else {
        LinkSingle(Skip(Signed(bytes.value)), st, m);
      }
      ok := true;
    }

    method DoSpecial(code: nat, ghost st: Linked) returns (ok: bool)
      requires Tracks(st) && pos < |input| && Current() == SpecialCommand(input[pos..], code, relocsize)
      modifies this
      ensures Carried(ok, st)
    {
      if code == 1 || code == 2 {
        relocsize := code;
      } else if code == 17 {
        ok := DoSkip(1, st);
        return;
      } else if code == 18 {
        ok := DoSkip(2, st);
        return;
      } else if code == 19 {
        ok := DoSkip(4, st);
        return;
      } else if 32 <= code < 48 {
        LinkSingle(SetSeg(code - 32), st, m);
        SetSegment(code - 32, st);
      } else {
        return false;
      }
      pos := pos + 1;
      ok := true;
    }

    method DoChunk(code: nat, ghost st: Linked) returns (ok: bool)
      requires Tracks(st) && pos < |input| && Current() == ChunkCommand(input[pos..], code, relocsize)
      modifies this
      ensures Carried(ok, st)
    {
      var count := if code == 0 then CHUNK else code;
      pos := pos + 1;
      var bytes := ReadIn(count);
      if bytes.None? {
        return false;
      }
      assert input[old(pos)..][1..1 + count] == bytes.value;
      LinkBytes(bytes.value, st, m);
      SegWrite(bytes.value, st);
      ok := true;
    }

    /** Relocate, and write the result. */
    method Relocate(r: Request, ghost st: Linked) returns (ok: bool)
      requires Tracks(st) && r.Reloc?
      modifies this`spos, this`file, this`cursor
      ensures ok == LinkAll([r], st, m).Some? && (ok ==> Tracks(LinkAll([r], st, m).value))
    {
      LinkSingle(r, st, m);
      if !Resolves(r, m) {
        return false;
      }
      var offset := r.offset;
      if r.pcr {
        offset := offset - (spos + r.size);
      }
      if r.target.InSegment? {
        offset := offset + m.segaddr[r.target.seg];
      } else {
        offset := offset + m.symbols[r.target.index];
      }
      SegWrite(ToBytes(offset, r.size), st);
      ok := true;
    }

    method DoOffset(code: nat, ghost st: Linked) returns (ok: bool)
      requires Tracks(st) && pos < |input| && Current() == OffsetCommand(input[pos..], code, relocsize)
      modifies this
      ensures Carried(ok, st)
    {
      pos := pos + 1;
      var bytes := ReadIn(relocsize);
      if bytes.None? {
        return false;
      }
      assert input[old(pos)..][1..1 + relocsize] == bytes.value;
      ok := Relocate(Reloc(relocsize, code >= 32, InSegment(code % 16), FromBytes(bytes.value)), st);
    }

    method DoSymbol(code: nat, ghost st: Linked) returns (ok: bool)
      requires Tracks(st) && pos < |input| && Current() == SymbolCommand(input[pos..], code, relocsize)
      modifies this
      ensures Carried(ok, st)
    {
      var wide, size := if code % 8 >= 4 then 2 else 1, ConvertSize(code % 4);
      pos := pos + 1;
      var number := ReadIn(wide);
      if number.None? {
        return false;
      }
      var bytes := ReadIn(size);
      if bytes.None? {
        return false;
      }
      assert input[old(pos)..] == input[old(pos)..|input|];
      SliceOfSlice(input, old(pos), |input|, 1, 1 + wide);
      SliceOfSlice(input, old(pos), |input|, 1 + wide, 1 + wide + size);
      ok := Relocate(Reloc(relocsize, code >= 32, OfSymbol(FromBytes(number.value)), Signed(bytes.value)), st);
    }

    method DoCommand(ghost st: Linked) returns (ok: bool)
      requires Tracks(st) && pos < |input|
      modifies this
      ensures Carried(ok, st)
    {
      var code := input[pos] as int % 64;
      match input[pos] as int / 64 {
        case 0 => ok := DoSpecial(code, st);
        case 1 => ok := DoChunk(code, st);
        case 2 => ok := DoOffset(code, st);
        case _ => ok := DoSymbol(code, st);
      }
    }

    /** The command loop: everything that the stream says, or a refusal. */
    method LinkModule() returns (ok: bool)
      requires m.Valid() && pos <= |input|
      modifies this
      ensures ok == AfterStream(Decode(input[old(pos)..], 2), Begun(old(file)), m).Some?
      ensures ok ==> Tracks(AfterStream(Decode(input[old(pos)..], 2), Begun(old(file)), m).value) && segpos[curseg] == spos
    {
      Begin();
      ghost var st := Begun(file);
      ghost var goal := AfterStream(Decode(input[old(pos)..], 2), st, m);
      while true
        invariant pos <= |input| && Tracks(st)
        invariant goal == AfterStream(Decode(input[pos..], relocsize), st, m)
        decreases |input| - pos
      {
        if pos == |input| {
          return false;
        }
        if input[pos] == 0 {
          segpos := segpos[curseg := spos];
          return true;
        }
        ghost var s, c := input[pos..], Current();
        ok := DoCommand(st);
        if c.Some? {
          AfterBefore(c.value, if |s| < c.value.length then None else Decode(s[c.value.length..], c.value.relsize), st, m);
        }
        if !ok {
          return;
        }
        st := AfterCommand(c, st, m).value;
        assert s[c.value.length..] == input[pos..];
      }
    }

    method Pad(seg: nat, ghost st: Linked)
      requires Tracks(st) && seg < NSEG
      modifies this
      ensures Tracks(Put(Fill(m.pads[seg], m.fills[seg]), st.(cur := seg), m)) && segpos[curseg] == spos
    {
      SetSegment(seg, st);
      WriteFill(m.pads[seg], m.fills[seg], st.(cur := seg));
      segpos := segpos[seg := spos];
    }

    /** After the command loop: check the sizes and write the padding. */
    method PadModule(ghost st: Linked) returns (ok: bool)
      requires Tracks(st) && segpos[curseg] == spos
      modifies this
      ensures ok == PadFrom(0, st, m).Some?
      ensures ok ==> Tracks(PadFrom(0, st, m).value)
    {
      ghost var now := st;
      var seg := 0;
      while seg < NSEG
        invariant 0 <= seg <= NSEG && Tracks(now) && segpos[curseg] == spos
        invariant PadFrom(0, st, m) == PadFrom(seg, now, m)
      {
        if segpos[seg] - m.segaddr[seg] != m.sizes[seg] {
          return false;
        }
        if m.pads[seg] != 0 {
          Pad(seg, now);
          now := Put(Fill(m.pads[seg], m.fills[seg]), now.(cur := seg), m);
        }
        seg := seg + 1;
      }
      ok := true;
    }
  }
}
