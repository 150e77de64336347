/** From the source expression to the linked bytes: as/express.c:84-325, then
    as/genobj.c:166-233, then ld/writex86.c:378-413. */
module EndToEnd {
  import opened Prelude
  import opened AsmExpression
  import opened ObjectCode
  import opened ObjectWriter
  import opened SkipMerging
  import ModuleLinker
  import LinkerEngine

  // ---- bytes of congruent numbers

  lemma RangeDivides(size: nat, n: int)
    requires size <= 2
    ensures Wrap(n) % Range(size) == n % Range(size)
  {
    WordRange();
    WrapKeepsWord(n);
    ModuloOfModulo(n, Range(size));
    ModuloOfModulo(Wrap(n), Range(size));
  }

  lemma ModuloOfModulo(n: int, r: int)
    requires r == 1 || r == 256 || r == WORD
    ensures n % WORD % r == n % r
  {
    if r == 256 {
      var w := n % WORD;
      ModuloIs(n, 256, 256 * (n / WORD) + w / 256, w % 256);
    }
  }

  lemma {:induction false} BytesOfCongruent(x: int, y: int, size: nat)
    requires x % Range(size) == y % Range(size)
    ensures ToBytes(x, size) == ToBytes(y, size)
    decreases size
  {
    if size > 0 {
      ModuloSplits(x, Range(size - 1));
      ModuloSplits(y, Range(size - 1));
      BytesOfCongruent(x / 256, y / 256, size - 1);
    }
  }

  lemma SumModulo(a: int, x: int, y: int, d: pos)
    requires x % d == y % d
    ensures (a + x) % d == (a + y) % d
  {
    var k := x / d - y / d;
    assert x - y == d * (x / d) - d * (y / d);
    ModuloIs(a + x, d, (a + y) / d + k, (a + y) % d);
  }

  // ---- one operand

  /** The linker's view of a module agrees with a placement of segments and imports. */
  ghost predicate Places(m: ModuleLinker.Module, p: Placement, externals: seq<string>) {
    && m.Valid() && |externals| == |m.symbols| <= WORD
    && (forall s: bv4 :: m.segaddr[s as nat] == p.base(s))
    && (forall i | 0 <= i < |externals| :: m.symbols[i] == p.imports(externals[i]))
  }

  /** The relocation that the linker reads stores the meaning of the value. */
  lemma RelocIsFinal(v: Value, size: nat, m: ModuleLinker.Module, p: Placement, externals: seq<string>, at: int)
    requires Places(m, p, externals) && v.tag.rel && InRange(v.offset) && (size == 1 || size == 2)
    requires v.tag.imp ==> v.sym.Some? && v.sym.value in externals
    ensures ModuleLinker.Resolves(Normal(Reloc(size, false, TargetOf(v, externals), v.offset)), m)
    ensures ToBytes(ModuleLinker.RelocValue(Normal(Reloc(size, false, TargetOf(v, externals), v.offset)), at, m), size)
         == ToBytes(Final(v, p), size)
  {
    var r := Normal(Reloc(size, false, TargetOf(v, externals), v.offset));
    var base := Adjustment(v, p);
    if v.tag.imp {
      IndexFound(v.sym.value, externals);
      WordRange();
      ModuloOfModulo(v.offset, Range(size));
    } else {
      assert v.offset % Range(size) % Range(size) == v.offset % Range(size);
    }
    assert ModuleLinker.RelocValue(r, at, m) == base + r.offset;
    SumModulo(base, r.offset, v.offset, Range(size));
    RangeDivides(size, v.offset + base);
    BytesOfCongruent(base + r.offset, Final(v, p), size);
  }

  lemma IndexFound(x: string, names: seq<string>)
    requires x in names
    ensures IndexOf(Some(x), names) < |names| && names[IndexOf(Some(x), names)] == x
  {
    var i :| 0 <= i < |names| && names[i] == x;
  }

  // ---- whole programs

  /** A piece of a program: what is evaluated in which context, and its size. */
  datatype Item =
    | Fixed(request: Request)
    | Operand(e: Expr, c: Context, size: nat)

  /** What code generation asks for. */
  function Compiled(i: Item, externals: seq<string>): seq<Request> {
    if i.Fixed? then [i.request] else AddressRequests(Eval(i.e, i.c), i.size, false, externals)
  }

  /** The same program with the operand's meaning written out as bytes. */
  ghost function Literal(i: Item, p: Placement): seq<Request> {
    if i.Fixed? then [i.request] else ByteOps(ToBytes(Meaning(i.e, i.c, p), i.size))
  }

  function CompiledAll(items: seq<Item>, externals: seq<string>): seq<Request> {
    if items == [] then [] else Compiled(items[0], externals) + CompiledAll(items[1..], externals)
  }

  ghost function LiteralAll(items: seq<Item>, p: Placement): seq<Request> {
    if items == [] then [] else Literal(items[0], p) + LiteralAll(items[1..], p)
  }

  /** The assembler accepts the operand in its last pass. */
  ghost predicate Accepted(i: Item, p: Placement, externals: seq<string>) {
    i.Operand? ==>
      && (i.size == 1 || i.size == 2)
      && i.c.last && Sane(i.c) && WellTagged(i.c) && NumbersInRange(i.e) && Unwrapped(i.e, i.c, p)
      && !Eval(i.e, i.c).bad
      && (Eval(i.e, i.c).tag.imp ==> Eval(i.e, i.c).sym.Some? && Eval(i.e, i.c).sym.value in externals)
  }

  function NormalAll(rs: seq<Request>): seq<Request>
    requires forall r <- rs :: !r.Skip?
  {
    if rs == [] then [] else [Normal(rs[0])] + NormalAll(rs[1..])
  }

  lemma {:induction false} NormalBytes(data: seq<byte>)
    ensures NormalAll(ByteOps(data)) == ByteOps(data)
    decreases |data|
  {
    if data != [] {
      assert ByteOps(data)[1..] == ByteOps(data[1..]);
      NormalBytes(data[1..]);
    }
  }

  lemma {:induction false} MergedAppend(pending: int, rs: seq<Request>, rest: seq<Request>)
    requires rs != [] && forall r <- rs :: !r.Skip?
    ensures Merged(pending, rs + rest) == SkipOps(pending % WORD) + (NormalAll(rs) + Merged(0, rest))
    decreases |rs|
  {
    assert (rs + rest)[1..] == rs[1..] + rest;
    if |rs| == 1 {
      assert rs[1..] + rest == rest;
      assert NormalAll(rs) == [Normal(rs[0])];
    } else {
      MergedAppend(0, rs[1..], rest);
      assert SkipOps(0) + (NormalAll(rs[1..]) + Merged(0, rest)) == NormalAll(rs[1..]) + Merged(0, rest);
    }
    Regroup(SkipOps(pending % WORD), [Normal(rs[0])], NormalAll(rs[1..]), Merged(0, rest));
  }

  /** An accepted operand links to the bytes of its meaning. */
  lemma OperandLinks(i: Item, m: ModuleLinker.Module, p: Placement, externals: seq<string>, st: ModuleLinker.Linked)
    requires i.Operand? && Accepted(i, p, externals) && Places(m, p, externals) && st.Valid()
    ensures ModuleLinker.LinkAll(NormalAll(Compiled(i, externals)), st, m)
         == ModuleLinker.LinkAll(ByteOps(ToBytes(Meaning(i.e, i.c, p), i.size)), st, m)
  {
    var v := Eval(i.e, i.c);
    OperandIsSound(i.e, i.c, p);
    ModuleLinker.LinkBytes(ToBytes(Final(v, p), i.size), st, m);
    if v.tag.rel {
      RelocIsFinal(v, i.size, m, p, externals, ModuleLinker.Here(st, m));
      OneReloc(Normal(Compiled(i, externals)[0]), st, m);
    } else {
      AbsoluteFinal(v, p);
      NormalBytes(ToBytes(v.offset, i.size));
    }
  }

  lemma OneReloc(r: Request, st: ModuleLinker.Linked, m: ModuleLinker.Module)
    requires st.Valid() && m.Valid()
    ensures ModuleLinker.LinkAll([r], st, m) == ModuleLinker.LinkOne(r, st, m)
  {
  }

  ghost function LinkThen(st: Option<ModuleLinker.Linked>, rs: seq<Request>, m: ModuleLinker.Module): Option<ModuleLinker.Linked>
    requires m.Valid() && (st.Some? ==> st.value.Valid())
  {
    if st.None? then None else ModuleLinker.LinkAll(rs, st.value, m)
  }

  /** Linking a settled skip, then requests, then the rest. */
  lemma LinkParts(skips: seq<Request>, rs: seq<Request>, rest: seq<Request>, st: ModuleLinker.Linked, m: ModuleLinker.Module)
    requires st.Valid() && m.Valid()
    ensures ModuleLinker.LinkAll(skips + (rs + rest), st, m)
         == LinkThen(LinkThen(ModuleLinker.LinkAll(skips, st, m), rs, m), rest, m)
  {
    ModuleLinker.LinkAppend(skips, rs + rest, st, m);
    var next := ModuleLinker.LinkAll(skips, st, m);
    if next.Some? {
      ModuleLinker.LinkAppend(rs, rest, next.value, m);
    }
  }

  lemma MergedSkip(pending: int, n: int, rest: seq<Request>)
    ensures Merged(pending, [Skip(n)] + rest) == Merged(pending + n, rest)
  {
    assert ([Skip(n)] + rest)[1..] == rest;
  }

  ghost predicate AllAccepted(items: seq<Item>, p: Placement, externals: seq<string>) {
    items == [] || (Accepted(items[0], p, externals) && AllAccepted(items[1..], p, externals))
  }

  /** Linking the object code gives what linking the program with every operand
      replaced by the bytes of its meaning would give. */
  lemma {:induction false} ProgramLinks(items: seq<Item>, pending: int, m: ModuleLinker.Module, p: Placement,
                                        externals: seq<string>, st: ModuleLinker.Linked)
    requires Places(m, p, externals) && st.Valid() && AllAccepted(items, p, externals)
    ensures ModuleLinker.LinkAll(Merged(pending, CompiledAll(items, externals)), st, m)
         == ModuleLinker.LinkAll(Merged(pending, LiteralAll(items, p)), st, m)
    decreases |items|
  {
    if items == [] {
      return;
    }
    var i, compiled, literal := items[0], CompiledAll(items[1..], externals), LiteralAll(items[1..], p);
    if i.Fixed? && i.request.Skip? {
      MergedSkip(pending, i.request.n, compiled);
      MergedSkip(pending, i.request.n, literal);
      ProgramLinks(items[1..], pending + i.request.n, m, p, externals, st);
    } else {
      ItemLinks(i, pending, compiled, literal, m, p, externals, st);
      var next := AfterItem(i, pending, externals, st, m);
      if next.Some? {
        ProgramLinks(items[1..], 0, m, p, externals, next.value);
      }
    }
  }

  ghost predicate Settles(i: Item) {
    if i.Fixed? then !i.request.Skip? else i.size == 1 || i.size == 2
  }

  /** The pending skip, then an item. */
  ghost function AfterItem(i: Item, pending: int, externals: seq<string>, st: ModuleLinker.Linked, m: ModuleLinker.Module):
    (o: Option<ModuleLinker.Linked>)
    requires st.Valid() && m.Valid() && Settles(i)
    ensures o.Some? ==> o.value.Valid()
  {
    LinkThen(ModuleLinker.LinkAll(SkipOps(pending % WORD), st, m), NormalAll(Compiled(i, externals)), m)
  }

  /** Up to the end of an item that settles the pending skip. */
  lemma ItemLinks(i: Item, pending: int, compiled: seq<Request>, literal: seq<Request>,
                  m: ModuleLinker.Module, p: Placement, externals: seq<string>, st: ModuleLinker.Linked)
    requires Places(m, p, externals) && st.Valid() && Accepted(i, p, externals) && Settles(i)
    ensures ModuleLinker.LinkAll(Merged(pending, Compiled(i, externals) + compiled), st, m)
         == LinkThen(AfterItem(i, pending, externals, st, m), Merged(0, compiled), m)
    ensures ModuleLinker.LinkAll(Merged(pending, Literal(i, p) + literal), st, m)
         == LinkThen(AfterItem(i, pending, externals, st, m), Merged(0, literal), m)
  {
    var skips, a, b := SkipOps(pending % WORD), Compiled(i, externals), Literal(i, p);
    MergedAppend(pending, a, compiled);
    MergedAppend(pending, b, literal);
    LinkParts(skips, NormalAll(a), Merged(0, compiled), st, m);
    LinkParts(skips, NormalAll(b), Merged(0, literal), st, m);
    var at := ModuleLinker.LinkAll(skips, st, m);
    if at.Some? && i.Operand? {
      OperandLinks(i, m, p, externals, at.value);
      NormalBytes(ToBytes(Meaning(i.e, i.c, p), i.size));
    }
  }

  /** Generate a module's object code and link it. */
  method Build(items: seq<Item>, externals: seq<string>, m: ModuleLinker.Module, file: map<int, byte>, ghost p: Placement)
    returns (ok: bool, out: map<int, byte>)
    requires Places(m, p, externals)
    requires AllAccepted(items, p, externals) && forall i <- items :: i.Fixed? ==> Allowed(i.request)
    ensures ok == ModuleLinker.LinkAll(Merged(0, LiteralAll(items, p)), ModuleLinker.Begun(file), m).Some?
    ensures ok ==> out == ModuleLinker.LinkAll(Merged(0, LiteralAll(items, p)), ModuleLinker.Begun(file), m).value.file
  {
    var requests := CompiledAll(items, externals);
    CompiledIsAllowed(items, externals, p);
    var stream := Generate(requests);
    LogIsMerged(EMPTY, requests);
    assert EMPTY.done + Merged(0, requests) == Merged(0, requests);
    assert stream + [] == stream && stream[0..] == stream;
    var linker := new LinkerEngine.Linker(m, stream, file);
    ok := linker.LinkModule();
    out := linker.file;
    ProgramLinks(items, 0, m, p, externals, ModuleLinker.Begun(file));
  }

  lemma {:induction false} CompiledIsAllowed(items: seq<Item>, externals: seq<string>, p: Placement)
    requires AllAccepted(items, p, externals) && forall i <- items :: i.Fixed? ==> Allowed(i.request)
    ensures forall r <- CompiledAll(items, externals) :: Allowed(r)
    decreases |items|
  {
    if items != [] {
      var i := items[0];
      if i.Operand? {
        OperandIsSound(i.e, i.c, p);
      }
      CompiledIsAllowed(items[1..], externals, p);
    }
  }
}
