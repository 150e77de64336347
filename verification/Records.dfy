/** Motorola S-records and Intel hex (ld/srec.c:34-91), and an independent reader for
    both: what is written decodes to the bytes at their addresses. */
module Records {
  import opened Prelude
  import opened Memory

  const LINESIZE := 16

  datatype Format = Srec | Ihex

  // ---- hexadecimal

  function Digit(n: int): char
    requires 0 <= n < 16
  {
    if n < 10 then ('0' as int + n) as char else ('A' as int + n - 10) as char
  }

  function DigitValue(c: char): Option<int> {
    if '0' <= c <= '9' then Some(c as int - '0' as int)
    else if 'A' <= c <= 'F' then Some(c as int - 'A' as int + 10)
    else None
  }

  function Hex(b: byte): string {
    [Digit(b as int / 16), Digit(b as int % 16)]
  }

  function HexAll(bytes: seq<byte>): string {
    if bytes == [] then "" else Hex(bytes[0]) + HexAll(bytes[1..])
  }

  function ReadHex(text: string, count: nat): Option<(seq<byte>, string)> {
    if count == 0 then Some(([], text))
    else if |text| < 2 || DigitValue(text[0]).None? || DigitValue(text[1]).None? then None
    else
      var b := (DigitValue(text[0]).value * 16 + DigitValue(text[1]).value) as byte;
      var more := ReadHex(text[2..], count - 1);
      if more.None? then None else Some(([b] + more.value.0, more.value.1))
  }

  lemma DigitReads(n: int)
    requires 0 <= n < 16
    ensures DigitValue(Digit(n)) == Some(n)
  {
  }

  lemma {:induction false} HexReads(bytes: seq<byte>, rest: string)
    ensures ReadHex(HexAll(bytes) + rest, |bytes|) == Some((bytes, rest))
    decreases |bytes|
  {
    if bytes == [] {
      assert HexAll(bytes) + rest == rest;
    } else {
      var b := bytes[0] as int;
      DigitReads(b / 16);
      DigitReads(b % 16);
      assert (HexAll(bytes) + rest)[2..] == HexAll(bytes[1..]) + rest;
      HexReads(bytes[1..], rest);
      assert [bytes[0]] + bytes[1..] == bytes;
    }
  }

  // ---- lines

  function Sum(bytes: seq<byte>): int {
    if bytes == [] then 0 else bytes[0] as int + Sum(bytes[1..])
  }

  lemma {:induction false} SumAppend(a: seq<byte>, b: seq<byte>)
    ensures Sum(a + b) == Sum(a) + Sum(b)
  {
    if a == [] {
      assert a + b == b;
    } else {
      assert (a + b)[1..] == a[1..] + b;
      SumAppend(a[1..], b);
    }
  }

  /** A line's start and end. S-records give their kind as a digit after the S. */
  function Prefix(f: Format, kind: nat): string
    requires kind < 10
  {
    if f == Srec then ['S', Digit(kind)] else ":"
  }

  function Ending(f: Format): string {
    if f == Srec then "\n" else "\r\n"
  }

  /** The bytes of a line before its checksum. The count of an S-record includes the
      address and the checksum. Intel hex has its kind after the address. */
  function Counted(f: Format, kind: nat, address: int, data: seq<byte>): seq<byte>
    requires kind < 10 && |data| <= 252
  {
    var a := [(address / 256 % 256) as byte, (address % 256) as byte];
    if f == Srec then [(|data| + 3) as byte] + a + data else [|data| as byte] + a + [kind as byte] + data
  }

  /** The sum of all bytes with the checksum is $FF for an S-record and 0 for Intel hex. */
  function Check(f: Format, sum: int): byte {
    if f == Srec then (255 - sum % 256) as byte else ((256 - sum % 256) % 256) as byte
  }

  predicate Checks(f: Format, sum: int) {
    sum % 256 == if f == Srec then 255 else 0
  }

  function LineOf(f: Format, kind: nat, address: int, data: seq<byte>): string
    requires kind < 10 && |data| <= 252
  {
    var counted := Counted(f, kind, address, data);
    Prefix(f, kind) + HexAll(counted + [Check(f, Sum(counted))]) + Ending(f)
  }

  // ---- reading

  datatype Record = Record(kind: nat, address: int, data: seq<byte>)

  /** The bytes of a line whose checksum is right. */
  function Unpack(f: Format, kind: nat, bytes: seq<byte>): Option<Record>
    requires |bytes| > 0
  {
    if !Checks(f, Sum(bytes)) then None
    else if f == Srec then
      if |bytes| < 4 then None
      else Some(Record(kind, bytes[1] as int * 256 + bytes[2] as int, bytes[3..|bytes| - 1]))
    else if |bytes| < 5 then None
    else Some(Record(bytes[3] as int, bytes[1] as int * 256 + bytes[2] as int, bytes[4..|bytes| - 1]))
  }

  function ReadKind(f: Format, text: string): Option<(nat, string)> {
    if f == Srec then
      if |text| < 2 || text[0] != 'S' || !('0' <= text[1] <= '9') then None
      else Some((text[1] as int - '0' as int, text[2..]))
    else if |text| < 1 || text[0] != ':' then None
    else Some((0, text[1..]))
  }

  /** One line and what follows it. */
  function ReadLine(f: Format, text: string): Option<(Record, string)> {
    var k :- ReadKind(f, text);
    var count :- ReadHex(k.1, 1);
    var total := if f == Srec then count.0[0] as int + 1 else count.0[0] as int + 5;
    var line :- ReadHex(k.1, total);
    if |line.0| == 0 || !(Ending(f) <= line.1) then None
    else
      var r :- Unpack(f, k.0, line.0);
      Some((r, line.1[|Ending(f)|..]))
  }

  lemma ChecksumIsRight(f: Format, counted: seq<byte>)
    ensures Checks(f, Sum(counted + [Check(f, Sum(counted))]))
  {
    var c := Check(f, Sum(counted));
    SumAppend(counted, [c]);
    assert Sum([c]) == c as int;
  }

  lemma UnpackLine(f: Format, kind: nat, address: int, data: seq<byte>, bytes: seq<byte>)
    requires kind < 10 && |data| <= 252
    requires bytes == Counted(f, kind, address, data) + [Check(f, Sum(Counted(f, kind, address, data)))]
    ensures |bytes| == |data| + (if f == Srec then 4 else 5)
    ensures bytes[0] as int == if f == Srec then |data| + 3 else |data|
    ensures Unpack(f, kind, bytes) == Some(Record(kind, address % 0x10000, data))
  {
    ChecksumIsRight(f, Counted(f, kind, address, data));
    assert bytes[1] as int * 256 + bytes[2] as int == address % 0x10000 by {
      AddressBytes(address);
    }
    assert (if f == Srec then bytes[3..|bytes| - 1] else bytes[4..|bytes| - 1]) == data;
  }

  lemma AddressBytes(address: int)
    ensures address / 256 % 256 * 256 + address % 256 == address % 0x10000
  {
    var q := address / 256;
    ModuloIs(address, 0x10000, q / 256, q % 256 * 256 + address % 256);
  }

  lemma FirstByte(bytes: seq<byte>, rest: string)
    requires bytes != []
    ensures ReadHex(HexAll(bytes) + rest, 1).Some? && ReadHex(HexAll(bytes) + rest, 1).value.0 == [bytes[0]]
  {
    var b, more := bytes[0], HexAll(bytes[1..]);
    assert [b][1..] == [] && HexAll([b]) == Hex(b) + "";
    Assoc(Hex(b), more, rest);
    HexReads([b], more + rest);
  }

  lemma KindReads(f: Format, kind: nat, rest: string)
    requires kind < 10
    ensures ReadKind(f, Prefix(f, kind) + rest) == Some((if f == Srec then kind else 0, rest))
  {
    assert (Prefix(f, kind) + rest)[|Prefix(f, kind)|..] == rest;
    DigitReads(kind);
  }

  lemma EndingReads(f: Format, rest: string)
    ensures Ending(f) <= Ending(f) + rest && (Ending(f) + rest)[|Ending(f)|..] == rest
  {
  }

  /** Reading gives back every line that is written, with a valid checksum. */
  lemma LineReads(f: Format, kind: nat, address: int, data: seq<byte>, rest: string)
    requires kind < 10 && |data| <= 252
    ensures ReadLine(f, LineOf(f, kind, address, data) + rest) == Some((Record(kind, address % 0x10000, data), rest))
  {
    var counted := Counted(f, kind, address, data);
    var bytes := counted + [Check(f, Sum(counted))];
    var tail := Ending(f) + rest;
    assert LineOf(f, kind, address, data) + rest == Prefix(f, kind) + (HexAll(bytes) + tail);
    KindReads(f, kind, HexAll(bytes) + tail);
    UnpackLine(f, kind, address, data, bytes);
    FirstByte(bytes, tail);
    HexReads(bytes, tail);
    EndingReads(f, rest);
    UnpackKind(f, kind, bytes);
  }

  /** Intel hex takes the kind from the line. */
  lemma UnpackKind(f: Format, kind: nat, bytes: seq<byte>)
    requires |bytes| > 0
    ensures f == Ihex ==> Unpack(f, 0, bytes) == Unpack(f, kind, bytes)
  {
  }

  // ---- files

  /** What a loader gets from a file. */
  datatype Loaded = Loaded(memory: map<int, byte>, entry: int)

  function DataKind(f: Format): nat {
    if f == Srec then 1 else 0
  }

  function EndKind(f: Format): nat {
    if f == Srec then 9 else 1
  }

  /** Splits the first line off a text. */
  type LineReader = string -> Option<(Record, string)>

  /** A loader: data records are stored in order, S0 is skipped, S5 must give the number
      of data records, and the end record must be the last line. */
  function Load(next: LineReader, f: Format, text: string, count: nat, memory: map<int, byte>): Option<Loaded>
    decreases |text|
  {
    var l :- next(text);
    var r, rest := l.0, l.1;
    if |rest| >= |text| then None
    else if r.kind == DataKind(f) then Load(next, f, rest, count + 1, Overwrite(memory, r.address, r.data))
    else if r.kind == EndKind(f) then if rest == "" then Some(Loaded(memory, r.address)) else None
    else if f == Srec && r.kind == 0 then Load(next, f, rest, count, memory)
    else if f == Srec && r.kind == 5 && r.address == count % 0x10000 then Load(next, f, rest, count, memory)
    else None
  }

  function NextLine(f: Format): LineReader {
    (text: string) => ReadLine(f, text)
  }

  function ReadFile(f: Format, text: string, count: nat, memory: map<int, byte>): Option<Loaded> {
    Load(NextLine(f), f, text, count, memory)
  }

  function Chunk(buf: seq<byte>): nat {
    if |buf| > LINESIZE then LINESIZE else |buf|
  }

  /** The lines for a buffer, when `line` writes one of them. */
  function LinesBy(line: (int, seq<byte>) -> string, buf: seq<byte>, address: int): string
    decreases |buf|
  {
    if buf == [] then "" else line(address, buf[..Chunk(buf)]) + LinesBy(line, buf[Chunk(buf)..], address + Chunk(buf))
  }

  function DataLine(f: Format): (int, seq<byte>) -> string {
    (address, data) => if |data| <= 252 then LineOf(f, DataKind(f), address, data) else ""
  }

  /** The data records of a buffer. */
  function DataLines(f: Format, buf: seq<byte>, address: int): string {
    LinesBy(DataLine(f), buf, address)
  }

  lemma LineIsNonempty(f: Format, kind: nat, address: int, data: seq<byte>, rest: string)
    requires kind < 10 && |data| <= 252
    ensures |rest| < |LineOf(f, kind, address, data) + rest|
  {
  }

  function LineCount(n: nat): nat {
    (n + LINESIZE - 1) / LINESIZE
  }

  lemma CountSplits(size: nat, n: nat)
    requires 0 < n <= size && (n == size <= LINESIZE || n == LINESIZE)
    ensures LineCount(size) == 1 + LineCount(size - n)
  {
  }

  /** `next` reads what `line` writes. */
  ghost predicate Takes(kind: nat, line: (int, seq<byte>) -> string, next: LineReader) {
    forall a: int, d: seq<byte>, rest: string | 0 <= a < 0x10000 && |d| <= LINESIZE ::
      next(line(a, d) + rest) == Some((Record(kind, a, d), rest)) && |rest| < |line(a, d) + rest|
  }

  lemma LoadData(next: LineReader, f: Format, text: string, r: Record, rest: string, count: nat, memory: map<int, byte>)
    requires next(text) == Some((r, rest)) && |rest| < |text| && r.kind == DataKind(f)
    ensures Load(next, f, text, count, memory) == Load(next, f, rest, count + 1, Overwrite(memory, r.address, r.data))
  {
  }

  lemma FirstLine(line: (int, seq<byte>) -> string, next: LineReader, kind: nat, buf: seq<byte>, address: int, rest: string,
                  n: nat)
    requires Takes(kind, line, next) && buf != [] && n == Chunk(buf) && 0 <= address < 0x10000
    ensures next(LinesBy(line, buf, address) + rest)
         == Some((Record(kind, address, buf[..n]), LinesBy(line, buf[n..], address + n) + rest))
    ensures |LinesBy(line, buf[n..], address + n) + rest| < |LinesBy(line, buf, address) + rest|
  {
    var first, more := line(address, buf[..n]), LinesBy(line, buf[n..], address + n);
    Assoc(first, more, rest);
  }

  lemma StoreSplits(memory: map<int, byte>, address: int, buf: seq<byte>, n: nat)
    requires n <= |buf|
    ensures Overwrite(Overwrite(memory, address, buf[..n]), address + n, buf[n..]) == Overwrite(memory, address, buf)
  {
    OverwriteAppend(memory, address, buf[..n], buf[n..]);
    assert buf[..n] + buf[n..] == buf;
  }

  lemma {:induction false} LinesRead(line: (int, seq<byte>) -> string, next: LineReader, f: Format,
                                     buf: seq<byte>, address: int, rest: string, count: nat, memory: map<int, byte>)
    requires Takes(DataKind(f), line, next) && 0 <= address && address + |buf| <= 0x10000
    ensures Load(next, f, LinesBy(line, buf, address) + rest, count, memory)
         == Load(next, f, rest, count + LineCount(|buf|), Overwrite(memory, address, buf))
    decreases |buf|
  {
    if buf == [] {
      assert LinesBy(line, buf, address) + rest == rest && LineCount(0) == 0;
    } else {
      var n := Chunk(buf);
      var text, left := LinesBy(line, buf, address) + rest, LinesBy(line, buf[n..], address + n) + rest;
      FirstLine(line, next, DataKind(f), buf, address, rest, n);
      LoadData(next, f, text, Record(DataKind(f), address, buf[..n]), left, count, memory);
      LinesRead(line, next, f, buf[n..], address + n, rest, count + 1, Overwrite(memory, address, buf[..n]));
      StoreSplits(memory, address, buf, n);
      assert count + 1 + LineCount(|buf[n..]|) == count + LineCount(|buf|) by {
        CountSplits(|buf|, n);
      }
    }
  }

  lemma ReaderTakes(f: Format)
    ensures Takes(DataKind(f), DataLine(f), NextLine(f))
  {
    forall a: int, d: seq<byte>, rest: string | 0 <= a < 0x10000 && |d| <= LINESIZE
      ensures NextLine(f)(DataLine(f)(a, d) + rest) == Some((Record(DataKind(f), a, d), rest))
      ensures |rest| < |DataLine(f)(a, d) + rest|
    {
      LineReads(f, DataKind(f), a, d, rest);
      LineIsNonempty(f, DataKind(f), a, d, rest);
    }
  }

  /** Reading the data records of a buffer stores exactly the buffer at its address. */
  lemma DataReads(f: Format, buf: seq<byte>, address: int, rest: string, count: nat, memory: map<int, byte>)
    requires 0 <= address && address + |buf| <= 0x10000
    ensures ReadFile(f, DataLines(f, buf, address) + rest, count, memory)
         == ReadFile(f, rest, count + LineCount(|buf|), Overwrite(memory, address, buf))
  {
    ReaderTakes(f);
    LinesRead(DataLine(f), NextLine(f), f, buf, address, rest, count, memory);
  }

  // ---- writers

  lemma {:induction false} HexAppend(a: seq<byte>, b: seq<byte>)
    ensures HexAll(a + b) == HexAll(a) + HexAll(b)
    decreases |a|
  {
    if a == [] {
      assert a + b == b;
    } else {
      assert (a + b)[1..] == a[1..] + b;
      HexAppend(a[1..], b);
      assert HexAll(a + b) == Hex(a[0]) + (HexAll(a[1..]) + HexAll(b));
    }
  }

  /** The bytes before the data. */
  function Head(f: Format, kind: nat, address: int, n: nat): seq<byte>
    requires kind < 10 && n <= 252
  {
    var a := [(address / 256 % 256) as byte, (address % 256) as byte];
    if f == Srec then [(n + 3) as byte] + a else [n as byte] + a + [kind as byte]
  }

  lemma ByteSum(a: int, b: int)
    ensures (a % 256 + b) % 256 == (a + b) % 256
  {
    ModuloIs(a + b, 256, a / 256 + (a % 256 + b) / 256, (a % 256 + b) % 256);
  }

  lemma WrittenByte(written: seq<byte>, b: byte, csum: int)
    requires csum == Sum(written) % 256
    ensures HexAll(written + [b]) == HexAll(written) + HexAll([b])
    ensures (csum + b as int) % 256 == Sum(written + [b]) % 256
  {
    HexAppend(written, [b]);
    SumAppend(written, [b]);
    assert Sum([b]) == b as int;
    ByteSum(Sum(written), b as int);
  }

  /** One line: the checksum is summed up in a byte while the data is written. */
  method WriteLine(f: Format, kind: nat, address: int, data: seq<byte>) returns (text: string)
    requires kind < 10 && |data| <= 252
    ensures text == LineOf(f, kind, address, data)
  {
    var head := Head(f, kind, address, |data|);
    ghost var counted := Counted(f, kind, address, data);
    assert head + data == counted;
    text := HexAll(head);
    var csum := Sum(head) % 256;
    var i := 0;
    ghost var written := head;
    while i < |data|
      invariant 0 <= i <= |data| && written == head + data[..i]
      invariant text == HexAll(written) && csum == Sum(written) % 256
    {
      WrittenByte(written, data[i], csum);
      text := text + HexAll([data[i]]);
      csum := (csum + data[i] as int) % 256;
      written := written + [data[i]];
      i := i + 1;
    }
    assert written == counted;
    text := FinishLine(f, kind, counted, text, csum);
  }

  method FinishLine(f: Format, kind: nat, ghost counted: seq<byte>, body: string, csum: int) returns (text: string)
    requires kind < 10 && body == HexAll(counted) && csum == Sum(counted) % 256
    ensures text == Prefix(f, kind) + HexAll(counted + [Check(f, Sum(counted))]) + Ending(f)
  {
    var check := Check(f, csum);
    HexAppend(counted, [check]);
    text := Prefix(f, kind) + (body + HexAll([check])) + Ending(f);
  }

  /** `srec_data` and `ihex_data` */
  method WriteData(f: Format, buf: seq<byte>, address: int) returns (text: string, records: nat)
    ensures text == DataLines(f, buf, address) && records == LineCount(|buf|)
  {
    text, records := "", 0;
    var left, at := buf, address;
    while left != []
      invariant text + DataLines(f, left, at) == DataLines(f, buf, address)
      invariant records + LineCount(|left|) == LineCount(|buf|)
      decreases |left|
    {
      var n := Chunk(left);
      var line := WriteLine(f, DataKind(f), at, left[..n]);
      Assoc(text, line, DataLines(f, left[n..], at + n));
      CountSplits(|left|, n);
      text, records := text + line, records + 1;
      left, at := left[n..], at + n;
    }
  }

  // ---- the formats

  lemma HexThree(a: byte, b: byte, c: byte)
    ensures HexAll([a, b, c]) == Hex(a) + Hex(b) + Hex(c)
  {
    assert [a, b, c][1..] == [b, c] && [b, c][1..] == [c] && [c][1..] == [];
    assert HexAll([c]) == Hex(c) && HexAll([b, c]) == Hex(b) + HexAll([c]);
  }

  lemma SumFour(a: byte, b: byte, c: byte, d: byte)
    ensures Sum([a, b, c, d]) == a as int + b as int + c as int + d as int
  {
    assert [a, b, c, d][1..] == [b, c, d] && [b, c, d][1..] == [c, d] && [c, d][1..] == [d] && [d][1..] == [];
    assert Sum([d]) == d as int && Sum([c, d]) == c as int + Sum([d]) && Sum([b, c, d]) == b as int + Sum([c, d]);
  }

  /** An S1 record: two bytes at $1000. */
  lemma MotorolaLine()
    ensures LineOf(Srec, 1, 0x1000, [0x1A, 2]) == "S10510001A02CE\n"
  {
    HexThree(5, 0x10, 0);
    HexThree(0x1A, 2, 0xCE);
    HexAppend([5, 0x10, 0], [0x1A, 2, 0xCE]);
    SumFour(0x10, 0, 0x1A, 2);
    var s := Counted(Srec, 1, 0x1000, [0x1A, 2]);
    assert s == [5, 0x10, 0, 0x1A, 2] && s[1..] == [0x10, 0, 0x1A, 2] && Sum(s) == 5 + Sum(s[1..]);
    assert s + [0xCE] == [5, 0x10, 0] + [0x1A, 2, 0xCE];
  }

  /** An Intel hex record of kind 1, with the entry point $1A2B. */
  lemma IntelLine()
    ensures LineOf(Ihex, 1, 0x1A2B, []) == ":001A2B01BA\r\n"
  {
    HexThree(0, 0x1A, 0x2B);
    HexAppend([0, 0x1A, 0x2B], [1, 0xBA]);
    assert [1, 0xBA][1..] == [0xBA] && HexAll([0xBA]) == Hex(0xBA) + HexAll([0xBA][1..]);
    SumFour(0, 0x1A, 0x2B, 1);
    var i := Counted(Ihex, 1, 0x1A2B, []);
    assert i == [0, 0x1A, 0x2B, 1] && i + [0xBA] == [0, 0x1A, 0x2B] + [1, 0xBA];
  }

  lemma LinesSplit(line: (int, seq<byte>) -> string, buf: seq<byte>, address: int)
    ensures |buf| > 16 ==> LinesBy(line, buf, address) == line(address, buf[..16]) + LinesBy(line, buf[16..], address + 16)
    ensures 0 < |buf| <= 16 ==> LinesBy(line, buf, address) == line(address, buf)
  {
    if 0 < |buf| <= 16 {
      assert buf[..|buf|] == buf && buf[|buf|..] == [];
      assert LinesBy(line, [], address + |buf|) == "";
    }
  }

  /** A record holds at most sixteen bytes: S1 records, or Intel hex records of kind 0. */
  lemma DataLinesAre(f: Format, buf: seq<byte>, address: int)
    ensures |buf| > 16 ==>
              DataLines(f, buf, address)
              == LineOf(f, if f == Srec then 1 else 0, address, buf[..16]) + DataLines(f, buf[16..], address + 16)
    ensures 0 < |buf| <= 16 ==> DataLines(f, buf, address) == LineOf(f, if f == Srec then 1 else 0, address, buf)
    ensures buf == [] ==> DataLines(f, buf, address) == ""
  {
    LinesSplit(DataLine(f), buf, address);
  }
}
