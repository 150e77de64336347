/** The command stream of an object module: what the assembler's code generator
    (as/genobj.c) may emit and what the linker (ld/writex86.c) makes of it. */
module ObjectCode {
  import opened Prelude

  const CHUNK := 64

  const WORD := 0x1_0000

  datatype Target = InSegment(seg: nat) | OfSymbol(index: nat)

  /** What code generation asks for. A relocation has 1 or 2 bytes. */
  datatype Request =
    | Byte(b: byte)
    | Skip(n: int)
    | SetSeg(seg: nat)
    | Reloc(size: nat, pcr: bool, target: Target, offset: int)

  // ---- numbers

  function FromBytes(s: seq<byte>): nat {
    if s == [] then 0 else FromBytes(s[..|s| - 1]) * 256 + s[|s| - 1] as int
  }

  /** The low bytes of n, most significant first. */
  function ToBytes(n: int, size: nat): (s: seq<byte>)
    ensures |s| == size
    decreases size
  {
    if size == 0 then [] else ToBytes(n / 256, size - 1) + [(n % 256) as byte]
  }

  function Range(size: nat): pos {
    if size == 0 then 1 else 256 * Range(size - 1)
  }

  lemma {:induction false} BytesRoundTrip(n: int, size: nat)
    ensures FromBytes(ToBytes(n, size)) == n % Range(size)
    decreases size
  {
    if size > 0 {
      var high := ToBytes(n / 256, size - 1);
      assert ToBytes(n, size)[..size - 1] == high;
      BytesRoundTrip(n / 256, size - 1);
      ModuloSplits(n, Range(size - 1));
    }
  }

  lemma ModuloSplits(n: int, r: pos)
    ensures n % (256 * r) == ((n / 256) % r) * 256 + n % 256
  {
    var q, k := n / 256, (n / 256) / r;
    var m := (q % r) * 256 + n % 256;
    assert q == r * k + q % r;
    assert n == 256 * (r * k) + m;
    assert 256 * (r * k) == (256 * r) * k;
    ModuloIs(n, 256 * r, k, m);
  }

  // ---- decoding

  function SkipOps(n: int): seq<Request> {
    if n == 0 then [] else [Skip(n)]
  }

  function ByteOps(s: seq<byte>): (r: seq<Request>)
    ensures |r| == |s|
  {
    seq(|s|, i requires 0 <= i < |s| => Byte(s[i]))
  }

  /** One command: what it asks for, the relocation size after it, and its length. */
  datatype Command = Command(ops: seq<Request>, relsize: nat, length: pos)

  /** The signed 32-bit value of up to four bytes. */
  function Signed(s: seq<byte>): int {
    if FromBytes(s) < 0x8000_0000 then FromBytes(s) else FromBytes(s) - 0x1_0000_0000
  }

  /** A size code stands for 0, 1, 2 or 4 bytes. */
  function ConvertSize(code: nat): nat {
    if code == 3 then 4 else code
  }

  function SkipCommand(s: seq<byte>, size: nat, relsize: nat): Option<Command>
    requires s != []
  {
    if |s| < 1 + size || Signed(s[1..1 + size]) < 0 then None
    else Some(Command(SkipOps(Signed(s[1..1 + size])), relsize, 1 + size))
  }

  function SpecialCommand(s: seq<byte>, m: nat, relsize: nat): Option<Command>
    requires s != []
  {
    if m == 1 || m == 2 then Some(Command([], m, 1))
    else if m == 17 then SkipCommand(s, 1, relsize)
    else if m == 18 then SkipCommand(s, 2, relsize)
    else if m == 19 then SkipCommand(s, 4, relsize)
    else if 32 <= m < 48 then Some(Command([SetSeg(m - 32)], relsize, 1))
    else None
  }

  function ChunkCommand(s: seq<byte>, m: nat, relsize: nat): Option<Command>
    requires s != []
  {
    var count := if m == 0 then CHUNK else m;
    if |s| < 1 + count then None else Some(Command(ByteOps(s[1..1 + count]), relsize, 1 + count))
  }

  function OffsetCommand(s: seq<byte>, m: nat, relsize: nat): Option<Command>
    requires s != []
  {
    if |s| < 1 + relsize then None
    else Some(Command([Reloc(relsize, m >= 32, InSegment(m % 16), FromBytes(s[1..1 + relsize]))], relsize, 1 + relsize))
  }

  function SymbolCommand(s: seq<byte>, m: nat, relsize: nat): Option<Command>
    requires s != []
  {
    var wide := if m % 8 >= 4 then 2 else 1;
    var size := ConvertSize(m % 4);
    if |s| < 1 + wide + size then None
    else Some(Command([Reloc(relsize, m >= 32, OfSymbol(FromBytes(s[1..1 + wide])), Signed(s[1 + wide..1 + wide + size]))],
                      relsize, 1 + wide + size))
  }

  function Next(s: seq<byte>, relsize: nat): Option<Command>
    requires s != []
  {
    var m := s[0] as int % 64;
    match s[0] as int / 64
    case 0 => SpecialCommand(s, m, relsize)
    case 1 => ChunkCommand(s, m, relsize)
    case 2 => OffsetCommand(s, m, relsize)
    case _ => SymbolCommand(s, m, relsize)
  }

  function Before(ops: seq<Request>, rest: Option<seq<Request>>): Option<seq<Request>> {
    if rest.None? then None else Some(ops + rest.value)
  }

  /** Everything up to the end-of-text command; None for a stream the linker refuses. */
  function Decode(s: seq<byte>, relsize: nat): Option<seq<Request>> {
    if s == [] then None
    else if s[0] == 0 then Some([])
    else
      var c := Next(s, relsize);
      if c.None? || |s| < c.value.length then None
      else Before(c.value.ops, Decode(s[c.value.length..], c.value.relsize))
  }

  // ---- what one command decodes to, whatever follows it

  lemma DecodeCommand(cmd: seq<byte>, tail: seq<byte>, relsize: nat, c: Command)
    requires cmd != [] && cmd[0] != 0 && c.length == |cmd| && Next(cmd + tail, relsize) == Some(c)
    ensures Decode(cmd + tail, relsize) == Before(c.ops, Decode(tail, c.relsize))
  {
    assert (cmd + tail)[c.length..] == tail;
  }

  lemma DecodeSegment(seg: nat, tail: seq<byte>, relsize: nat)
    requires seg < 16
    ensures Decode([(32 + seg) as byte] + tail, relsize) == Before([SetSeg(seg)], Decode(tail, relsize))
  {
    DecodeCommand([(32 + seg) as byte], tail, relsize, Command([SetSeg(seg)], relsize, 1));
  }

  lemma DecodeSize(size: nat, tail: seq<byte>, relsize: nat)
    requires size == 1 || size == 2
    ensures Decode([size as byte] + tail, relsize) == Before([], Decode(tail, size))
  {
    DecodeCommand([size as byte], tail, relsize, Command([], size, 1));
  }

  lemma DecodeChunk(data: seq<byte>, tail: seq<byte>, relsize: nat)
    requires 0 < |data| <= CHUNK
    ensures Decode([(64 + |data| % CHUNK) as byte] + data + tail, relsize) == Before(ByteOps(data), Decode(tail, relsize))
  {
    var cmd := [(64 + |data| % CHUNK) as byte] + data;
    assert (cmd + tail)[1..1 + |data|] == data;
    DecodeCommand(cmd, tail, relsize, Command(ByteOps(data), relsize, 1 + |data|));
  }

  lemma WordRange()
    ensures Range(1) == 256 && Range(2) == WORD
  {
  }

  /** A skip of up to two bytes. */
  lemma DecodeSkip(n: nat, size: nat, tail: seq<byte>, relsize: nat)
    requires size == 1 || size == 2
    ensures Decode([(16 + size) as byte] + ToBytes(n, size) + tail, relsize)
         == Before(SkipOps(n % Range(size)), Decode(tail, relsize))
  {
    var cmd := [(16 + size) as byte] + ToBytes(n, size);
    assert (cmd + tail)[1..1 + size] == ToBytes(n, size);
    BytesRoundTrip(n, size);
    WordRange();
    DecodeCommand(cmd, tail, relsize, Command(SkipOps(n % Range(size)), relsize, 1 + size));
  }

  function Flag(b: bool, value: nat): nat {
    if b then value else 0
  }

  lemma DecodeOffsetCode(m: nat, op: Request, cmd: seq<byte>, tail: seq<byte>, relsize: nat)
    requires m < 64 && |cmd| == 1 + relsize && cmd[0] as int == 128 + m
    requires OffsetCommand(cmd + tail, m, relsize) == Some(Command([op], relsize, 1 + relsize))
    ensures Decode(cmd + tail, relsize) == Before([op], Decode(tail, relsize))
  {
    DecodeCommand(cmd, tail, relsize, Command([op], relsize, 1 + relsize));
  }

  lemma OffsetNext(seg: nat, pcr: bool, offset: int, s: seq<byte>, m: nat, relsize: nat)
    requires seg < 16 && m == Flag(pcr, 32) + seg && |s| >= 1 + relsize && s[1..1 + relsize] == ToBytes(offset, relsize)
    ensures m < 64 && OffsetCommand(s, m, relsize)
         == Some(Command([Reloc(relsize, pcr, InSegment(seg), offset % Range(relsize))], relsize, 1 + relsize))
  {
    BytesRoundTrip(offset, relsize);
  }

  lemma DecodeOffset(seg: nat, pcr: bool, offset: int, tail: seq<byte>, relsize: nat)
    requires seg < 16 && (relsize == 1 || relsize == 2)
    ensures Decode([(128 + Flag(pcr, 32) + seg) as byte] + ToBytes(offset, relsize) + tail, relsize)
         == Before([Reloc(relsize, pcr, InSegment(seg), offset % Range(relsize))], Decode(tail, relsize))
  {
    var cmd := [(128 + Flag(pcr, 32) + seg) as byte] + ToBytes(offset, relsize);
    assert (cmd + tail)[1..1 + relsize] == ToBytes(offset, relsize);
    OffsetNext(seg, pcr, offset, cmd + tail, Flag(pcr, 32) + seg, relsize);
    DecodeOffsetCode(Flag(pcr, 32) + seg, Reloc(relsize, pcr, InSegment(seg), offset % Range(relsize)), cmd, tail, relsize);
  }

  /** How many bytes a symbol number and an offset take. */
  function SymbolSize(index: nat): nat {
    if index >= 256 then 2 else 1
  }

  function OffsetSize(offset: nat): nat {
    if offset >= 256 then 2 else if offset != 0 then 1 else 0
  }

  function SymbolBytes(index: nat, pcr: bool, offset: nat): seq<byte> {
    [(192 + Flag(pcr, 32) + Flag(index >= 256, 4) + OffsetSize(offset)) as byte]
    + ToBytes(index, SymbolSize(index)) + ToBytes(offset, OffsetSize(offset))
  }

  lemma SmallNumbers(n: nat)
    ensures n % Range(if n >= 256 then 2 else 1) == n % WORD
    ensures n % Range(OffsetSize(n)) == n % WORD
  {
    WordRange();
  }

  lemma SymbolCode(pcr: bool, wide: bool, size: nat, m: nat)
    requires size <= 2 && m == Flag(pcr, 32) + Flag(wide, 4) + size
    ensures m < 64 && (m >= 32 <==> pcr) && (m % 8 >= 4 <==> wide) && m % 4 == size
  {
  }

  lemma SymbolParts(index: nat, pcr: bool, offset: nat, tail: seq<byte>, s: seq<byte>)
    requires s == SymbolBytes(index, pcr, offset) + tail
    ensures |SymbolBytes(index, pcr, offset)| == 1 + SymbolSize(index) + OffsetSize(offset) <= |s|
    ensures s[1..1 + SymbolSize(index)] == ToBytes(index, SymbolSize(index))
    ensures s[1 + SymbolSize(index)..1 + SymbolSize(index) + OffsetSize(offset)] == ToBytes(offset, OffsetSize(offset))
  {
  }

  lemma SymbolNext(number: nat, value: nat, pcr: bool, s: seq<byte>, m: nat, wide: nat, size: nat, relsize: nat)
    requires m < 64 && (m >= 32 <==> pcr) && wide == (if m % 8 >= 4 then 2 else 1) && size == m % 4 <= 2
    requires |s| >= 1 + wide + size && value < WORD
    requires FromBytes(s[1..1 + wide]) == number && FromBytes(s[1 + wide..1 + wide + size]) == value
    ensures SymbolCommand(s, m, relsize)
         == Some(Command([Reloc(relsize, pcr, OfSymbol(number), value)], relsize, 1 + wide + size))
  {
  }

  lemma NumberParts(index: nat, offset: nat)
    ensures FromBytes(ToBytes(index, SymbolSize(index))) == index % WORD
    ensures FromBytes(ToBytes(offset, OffsetSize(offset))) == offset % WORD
  {
    SmallNumbers(index);
    SmallNumbers(offset);
    BytesRoundTrip(index, SymbolSize(index));
    BytesRoundTrip(offset, OffsetSize(offset));
  }

  lemma DecodeSymbolCode(m: nat, op: Request, wide: nat, size: nat, cmd: seq<byte>, tail: seq<byte>, relsize: nat)
    requires m < 64 && |cmd| == 1 + wide + size && cmd[0] as int == 192 + m
    requires SymbolCommand(cmd + tail, m, relsize) == Some(Command([op], relsize, 1 + wide + size))
    ensures Decode(cmd + tail, relsize) == Before([op], Decode(tail, relsize))
  {
    DecodeCommand(cmd, tail, relsize, Command([op], relsize, 1 + wide + size));
  }

  lemma DecodeSymbol(index: nat, pcr: bool, offset: nat, tail: seq<byte>, relsize: nat)
    ensures Decode(SymbolBytes(index, pcr, offset) + tail, relsize)
         == Before([Reloc(relsize, pcr, OfSymbol(index % WORD), offset % WORD)], Decode(tail, relsize))
  {
    var cmd, wide, size := SymbolBytes(index, pcr, offset), SymbolSize(index), OffsetSize(offset);
    var m := Flag(pcr, 32) + Flag(index >= 256, 4) + size;
    SymbolCode(pcr, index >= 256, size, m);
    SymbolParts(index, pcr, offset, tail, cmd + tail);
    NumberParts(index, offset);
    SymbolNext(index % WORD, offset % WORD, pcr, cmd + tail, m, wide, size, relsize);
    DecodeSymbolCode(m, Reloc(relsize, pcr, OfSymbol(index % WORD), offset % WORD), wide, size, cmd, tail, relsize);
  }

  // ---- the format

  /** A command from $40 to $7F announces its low six bits of bytes, and $40 announces 64. */
  lemma CodedLengths(code: byte, rest: seq<byte>, relsize: nat, n: nat)
    requires 64 <= code < 128 && n == (if code == 64 then 64 else code as int - 64)
    ensures |rest| >= n ==> Decode([code] + rest, relsize) == Before(ByteOps(rest[..n]), Decode(rest[n..], relsize))
    ensures |rest| < n ==> Decode([code] + rest, relsize) == None
  {
    if |rest| >= n {
      var data, tail := rest[..n], rest[n..];
      assert rest == data + tail && |data| == n;
      Assoc([code], data, tail);
      DecodeChunk(data, tail, relsize);
    }
  }
}
