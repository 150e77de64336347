/** The object code writer (as/genobj.c:40-105, 166-233, 505-540): absolute bytes wait
    in a 64-byte buffer, skips are added up, and the relocation size is only sent
    when it changes. Decoding what was sent gives back what was asked for. */
module ObjectWriter {
  import opened Prelude
  import opened AsmExpression
  import opened ObjectCode

  // ---- what the stream is meant to say

  /** What the stream keeps of a request: two-byte numbers, and offsets of the
      relocation's size. */
  function Normal(op: Request): Request
    requires !op.Skip?
  {
    if !op.Reloc? then op
    else if op.target.InSegment? then op.(offset := op.offset % Range(op.size))
    else op.(target := OfSymbol(op.target.index % WORD), offset := op.offset % WORD)
  }

  /** Requests so far: consecutive skips are still being added up. */
  datatype Log = Log(done: seq<Request>, pending: int)
  {
    /** The pending skip is taken modulo 65536, and dropped when it is then zero. */
    function Settled(): seq<Request> {
      done + SkipOps(pending % WORD)
    }

    function Push(op: Request): Log {
      if op.Skip? then Log(done, pending + op.n) else Log(Settled() + [Normal(op)], 0)
    }

    function PushAll(ops: seq<Request>): Log
      decreases |ops|
    {
      if ops == [] then this else Push(ops[0]).PushAll(ops[1..])
    }
  }

  const EMPTY := Log([], 0)

  predicate Allowed(op: Request) {
    match op
    case Byte(_) => true
    case Skip(_) => true
    case SetSeg(s) => s < 16
    case Reloc(size, _, target, offset) =>
      (size == 1 || size == 2) && InRange(offset) && (target.InSegment? ==> target.seg < 16)
  }

  /** Whatever follows, the linker reads these requests first, and then goes on
      with this relocation size. */
  ghost predicate Decodes(out: seq<byte>, ops: seq<Request>, relsize: nat) {
    forall tail :: Decode(out + tail, 2) == Before(ops, Decode(tail, relsize))
  }

  /** A command says these requests, and changes the relocation size to `next`. */
  ghost predicate Says(cmd: seq<byte>, relsize: nat, more: seq<Request>, next: nat) {
    forall tail :: Decode(cmd + tail, relsize) == Before(more, Decode(tail, next))
  }

  lemma BeforeBefore(ops: seq<Request>, more: seq<Request>, rest: Option<seq<Request>>)
    ensures Before(ops, Before(more, rest)) == Before(ops + more, rest)
  {
    if rest.Some? {
      assert ops + (more + rest.value) == ops + more + rest.value;
    }
  }

  lemma ExtendBy(decode: (seq<byte>, nat) -> Option<seq<Request>>, out: seq<byte>, ops: seq<Request>, relsize: nat,
                 cmd: seq<byte>, more: seq<Request>, next: nat, tail: seq<byte>)
    requires decode(out + (cmd + tail), 2) == Before(ops, decode(cmd + tail, relsize))
    requires decode(cmd + tail, relsize) == Before(more, decode(tail, next))
    ensures decode(out + cmd + tail, 2) == Before(ops + more, decode(tail, next))
  {
    assert out + cmd + tail == out + (cmd + tail);
    BeforeBefore(ops, more, decode(tail, next));
  }

  lemma Extend(out: seq<byte>, ops: seq<Request>, relsize: nat, cmd: seq<byte>, more: seq<Request>, next: nat)
    requires Decodes(out, ops, relsize) && Says(cmd, relsize, more, next)
    ensures Decodes(out + cmd, ops + more, next)
  {
    forall tail
      ensures Decode(out + cmd + tail, 2) == Before(ops + more, Decode(tail, next))
    {
      ExtendBy(Decode, out, ops, relsize, cmd, more, next, tail);
    }
  }

  lemma ByteOpsAppend(s: seq<byte>, b: byte)
    ensures ByteOps(s + [b]) == ByteOps(s) + [Byte(b)]
  {
  }

  lemma WrapKeepsWord(x: int)
    ensures Wrap(x) % WORD == x % WORD
  {
    assert x == W * (x / W) + Wrap(x);
    ModuloIs(x, WORD, 0x1_0000_0000_0000 * (x / W) + Wrap(x) / WORD, Wrap(x) % WORD);
  }

  lemma WordSum(a: int, b: int, n: int)
    requires a % WORD == b % WORD
    ensures (a + n) % WORD == (b + n) % WORD
  {
    ModuloIs(a + n, WORD, (b + n) / WORD + a / WORD - b / WORD, (b + n) % WORD);
  }

  lemma SumKeepsWord(pending: int, rmb: int, n: int)
    requires pending % WORD == rmb % WORD
    ensures (pending + n) % WORD == Wrap(rmb + n) % WORD
  {
    WordSum(pending, rmb, n);
    WrapKeepsWord(rmb + n);
  }

  function RelocBytes(r: Request): seq<byte>
    requires r.Reloc? && Allowed(r)
  {
    if r.target.InSegment? then [(128 + Flag(r.pcr, 32) + r.target.seg) as byte] + ToBytes(r.offset, r.size)
    else SymbolBytes(r.target.index, r.pcr, r.offset)
  }

  lemma RelocSays(r: Request)
    requires r.Reloc? && Allowed(r)
    ensures Says(RelocBytes(r), r.size, [Normal(r)], r.size)
  {
    forall tail
      ensures Decode(RelocBytes(r) + tail, r.size) == Before([Normal(r)], Decode(tail, r.size))
    {
      if r.target.InSegment? {
        DecodeOffset(r.target.seg, r.pcr, r.offset, tail, r.size);
      } else {
        DecodeSymbol(r.target.index, r.pcr, r.offset, tail, r.size);
      }
    }
  }

  function SkipBytes(n: nat): seq<byte> {
    var size := if n >= 256 then 2 else 1;
    [(16 + size) as byte] + ToBytes(n, size)
  }

  lemma SkipSays(n: nat, total: int, relsize: nat)
    requires total == n % WORD
    ensures Says(SkipBytes(n), relsize, SkipOps(total), relsize)
  {
    forall tail
      ensures Decode(SkipBytes(n) + tail, relsize) == Before(SkipOps(total), Decode(tail, relsize))
    {
      SmallNumbers(n);
      DecodeSkip(n, if n >= 256 then 2 else 1, tail, relsize);
    }
  }

  class Writer {
    const absbuf: array<byte>
    var count: nat
    var rmb: nat
    var relsize: nat
    var out: seq<byte>
    ghost var sent: seq<Request>
    ghost var log: Log

    /** The linker starts with relocation size 2, the writer with none. */
    function Current(): nat
      reads this
    {
      if relsize == 0 then 2 else relsize
    }

    ghost predicate Valid()
      reads this, absbuf
    {
      && absbuf.Length == CHUNK && count <= CHUNK && relsize <= 2 && InRange(rmb)
      && (count == 0 || rmb == 0)
      && Decodes(out, sent, Current())
      && log.done == sent + ByteOps(absbuf[..count])
      && log.pending % WORD == rmb % WORD
    }

    constructor ()
      ensures Valid() && fresh(absbuf) && log == EMPTY
    {
      absbuf := new byte[CHUNK](_ => 0);
      count, rmb, relsize, out := 0, 0, 0, [];
      sent, log := [], EMPTY;
      new;
      forall tail: seq<byte>
        ensures Decode([] + tail, 2) == Before([], Decode(tail, 2))
      {
        assert [] + tail == tail;
        assert Decode(tail, 2).Some? ==> [] + Decode(tail, 2).value == Decode(tail, 2).value;
      }
    }

    /** Send a whole command. */
    method Send(cmd: seq<byte>, ghost more: seq<Request>, ghost next: nat)
      requires Says(cmd, Current(), more, next)
      requires Decodes(out, sent, Current())
      modifies this`out, this`sent
      ensures out == old(out) + cmd && sent == old(sent) + more && Decodes(out, sent, next)
    {
      Extend(out, sent, Current(), cmd, more, next);
      out, sent := out + cmd, sent + more;
    }

    method FlushAbs()
      requires Valid()
      modifies this`count, this`out, this`sent
      ensures Valid() && count == 0
    {
      if count > 0 {
        var cmd, i := [(64 + count % CHUNK) as byte], 0;
        while i < count
          invariant 0 <= i <= count && cmd == [(64 + count % CHUNK) as byte] + absbuf[..i]
        {
          cmd, i := cmd + [absbuf[i]], i + 1;
        }
        ghost var data := absbuf[..count];
        forall tail
          ensures Decode(cmd + tail, Current()) == Before(ByteOps(data), Decode(tail, Current()))
        {
          DecodeChunk(data, tail, Current());
        }
        Send(cmd, ByteOps(data), Current());
        count := 0;
        assert sent + ByteOps(absbuf[..count]) == sent;
      }
    }

    method FlushRmb()
      requires Valid() && count == 0
      modifies this`rmb, this`out, this`sent, this`log
      ensures Valid() && rmb == 0 && log == Log(old(log).Settled(), 0)
    {
      if rmb != 0 {
        SendRmb();
      }
      log := Log(log.Settled(), 0);
    }

    method SendRmb()
      requires Valid() && count == 0 && rmb != 0
      modifies this`rmb, this`out, this`sent, this`log
      ensures Valid() && rmb == 0 && log == Log(old(log).Settled(), 0)
    {
      ghost var skips := SkipOps(log.pending % WORD);
      var cmd := SkipBytes(rmb);
      SkipSays(rmb, log.pending % WORD, Current());
      assert ByteOps(absbuf[..count]) == [];
      assert log.done == sent;
      Send(cmd, skips, Current());
      rmb := 0;
      log := Log(sent, 0);
    }

    /** A skip, which may be negative: an unsigned 64-bit sum. */
    method AccumulateRmb(offset: int)
      requires Valid()
      modifies this
      ensures Valid() && log == old(log).Push(Skip(offset))
    {
      FlushAbs();
      SumKeepsWord(log.pending, rmb, offset);
      rmb := Wrap(rmb + offset);
      log := log.Push(Skip(offset));
    }

    method PutAbs(b: byte)
      requires Valid()
      modifies this, absbuf
      ensures Valid() && log == old(log).Push(Byte(b))
    {
      ghost var before := log;
      if rmb != 0 {
        FlushRmb();
      } else {
        log := Log(log.Settled(), 0);
      }
      if count >= CHUNK {
        FlushAbs();
      }
      ghost var data := absbuf[..count];
      absbuf[count] := b;
      count := count + 1;
      assert absbuf[..count] == data + [b];
      ByteOpsAppend(data, b);
      log := Log(log.done + [Byte(b)], 0);
    }

    /** Nothing may wait in the buffers when a command is sent. */
    method FlushBoth()
      requires Valid()
      modifies this`count, this`rmb, this`out, this`sent, this`log
      ensures Valid() && count == 0 && rmb == 0 && log == Log(old(log).Settled(), 0) && log.done == sent
    {
      FlushAbs();
      FlushRmb();
      assert sent + ByteOps(absbuf[..0]) == sent;
    }

    method SetSegment(seg: nat)
      requires Valid() && seg < 16
      modifies this
      ensures Valid() && log == old(log).Push(SetSeg(seg))
    {
      FlushBoth();
      forall tail
        ensures Decode([(32 + seg) as byte] + tail, Current()) == Before([SetSeg(seg)], Decode(tail, Current()))
      {
        DecodeSegment(seg, tail, Current());
      }
      Send([(32 + seg) as byte], [SetSeg(seg)], Current());
      log := Log(sent, 0);
      assert sent + ByteOps(absbuf[..0]) == sent;
    }

    method SendSize(size: nat)
      requires Valid() && count == 0 && rmb == 0 && (size == 1 || size == 2)
      modifies this`relsize, this`out, this`sent
      ensures Valid() && Current() == size && sent == old(sent)
    {
      if size != relsize {
        forall tail
          ensures Decode([size as byte] + tail, Current()) == Before([], Decode(tail, size))
        {
          DecodeSize(size, tail, Current());
        }
        Send([size as byte], [], size);
        relsize := size;
      }
    }

    method PutReloc(r: Request)
      requires Valid() && r.Reloc? && Allowed(r)
      modifies this
      ensures Valid() && log == old(log).Push(r)
    {
      FlushBoth();
      SendSize(r.size);
      RelocSays(r);
      Send(RelocBytes(r), [Normal(r)], Current());
      log := Log(sent, 0);
      assert sent + ByteOps(absbuf[..0]) == sent;
    }

    /** An operand of 1 or 2 bytes; an imported symbol is sent as its number. */
    method PutAddress(v: Value, size: nat, pcr: bool, externals: seq<string>)
      requires Valid() && InRange(v.offset) && (size == 1 || size == 2)
      modifies this, absbuf
      ensures Valid() && log == old(log).PushAll(AddressRequests(v, size, pcr, externals))
    {
      if !v.tag.rel {
        ghost var rs := ByteOps(ToBytes(v.offset, size));
        PutAbs(ToBytes(v.offset, size)[0]);
        if size > 1 {
          PutAbs(ToBytes(v.offset, size)[1]);
        }
        PushedAll(old(log), rs);
      } else {
        var target := InSegment(v.tag.seg as nat);
        if v.tag.imp {
          var number := SymbolNumber(v.sym, externals);
          target := OfSymbol(number);
        }
        PutReloc(Reloc(size, pcr, target, v.offset));
      }
    }

    /** The end of the stream. */
    method Finish()
      requires Valid()
      modifies this
      ensures forall rest :: Decode(out + rest, 2) == Some(old(log).Settled())
    {
      FlushBoth();
      forall rest: seq<byte>
        ensures Decode(out + [0] + rest, 2) == Some(sent)
      {
        assert out + [0] + rest == out + ([0] + rest);
        assert Decode([0] + rest, Current()) == Some([]);
      }
      out := out + [0];
    }
  }

  lemma PushedAll(log: Log, rs: seq<Request>)
    requires |rs| == 1 || |rs| == 2
    ensures log.PushAll(rs) == if |rs| == 1 then log.Push(rs[0]) else log.Push(rs[0]).Push(rs[1])
  {
    if |rs| == 2 {
      assert rs[1..] == [rs[1]] && rs[1..][1..] == [];
      assert log.Push(rs[0]).PushAll(rs[1..]) == log.Push(rs[0]).Push(rs[1]).PushAll([]);
    }
  }

  // ---- operands as requests

  /** The first occurrence of the imported name, or the number of names. */
  function IndexOf(x: Option<string>, names: seq<string>): (k: nat)
    ensures k <= |names|
    ensures k < |names| ==> Some(names[k]) == x
    ensures forall i | 0 <= i < k :: Some(names[i]) != x
  {
    if names == [] || x == Some(names[0]) then 0 else 1 + IndexOf(x, names[1..])
  }

  method SymbolNumber(x: Option<string>, externals: seq<string>) returns (k: nat)
    ensures k == IndexOf(x, externals)
  {
    k := 0;
    while k < |externals| && Some(externals[k]) != x
      invariant 0 <= k <= |externals|
      invariant forall i | 0 <= i < k :: Some(externals[i]) != x
    {
      k := k + 1;
    }
  }

  function TargetOf(v: Value, externals: seq<string>): Target {
    if v.tag.imp then OfSymbol(IndexOf(v.sym, externals)) else InSegment(v.tag.seg as nat)
  }

  function AddressRequests(v: Value, size: nat, pcr: bool, externals: seq<string>): seq<Request> {
    if v.tag.rel then [Reloc(size, pcr, TargetOf(v, externals), v.offset)] else ByteOps(ToBytes(v.offset, size))
  }

  // ---- the whole stream

  /** Any requests, as a stream for the linker. */
  method Generate(requests: seq<Request>) returns (stream: seq<byte>)
    requires forall r <- requests :: Allowed(r)
    ensures forall rest :: Decode(stream + rest, 2) == Some(EMPTY.PushAll(requests).Settled())
  {
    var w := new Writer();
    var i := 0;
    while i < |requests|
      invariant 0 <= i <= |requests| && w.Valid() && fresh(w) && fresh(w.absbuf)
      invariant EMPTY.PushAll(requests) == w.log.PushAll(requests[i..])
    {
      assert requests[i..][1..] == requests[i + 1..];
      var r := requests[i];
      assert Allowed(r);
      match r {
        case Byte(b) => w.PutAbs(b);
        case Skip(n) => w.AccumulateRmb(n);
        case SetSeg(s) => w.SetSegment(s);
        case Reloc(_, _, _, _) => w.PutReloc(r);
      }
      i := i + 1;
    }
    w.Finish();
    stream := w.out;
  }
}
