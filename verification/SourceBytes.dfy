/** Where the bytes of each source line lie: in its segment's part, at its location counter, with
    every label replaced by its final address; branches reach their targets. */
module SourceBytes {
  import opened Prelude
  import opened AsmExpression
  import opened Assembly
  import opened TwoPass
  import opened AssemblyTags
  import opened FinalTable
  import opened ObjectCode
  import opened ObjectWriter
  import opened SkipMerging
  import opened EndToEnd
  import opened LinkedPlaces
  import opened WholeProgram
  import opened Memory
  import ShortBranch
  import ModuleLinker

  // ---- the bytes of a line

  ghost function DataCode(es: seq<Expr>, d: Context, size: nat, p: Placement): seq<byte> {
    if es == [] then [] else ToBytes(Meaning(es[0], d, p), size) + DataCode(es[1..], d, size, p)
  }

  /** Opcode and operand, or data. Operands mean what they mean in d; their sizes and the
      displacement of a branch were decided in c. */
  ghost function Code(b: Body, op: byte, c: Context, d: Context, dirpag: int, p: Placement): seq<byte> {
    match b
    case Inherent => [op]
    case Memory(_, _, _, e) => [op] + ToBytes(Meaning(e, d, p), if Direct(b, c, dirpag) then 1 else 2)
    case Indexed(e) => [op] + ToBytes(Meaning(e, d, p), 1)
    case Immediate(wide, e) => [op] + ToBytes(Meaning(e, d, p), if wide then 2 else 1)
    case Branch(e) => [op, BranchByte(e, c)]
    case Bytes(es) => DataCode(es, d, 1, p)
    case Words(es) => DataCode(es, d, 2, p)
    case _ => []
  }

  lemma ByteOpsConcat(a: seq<byte>, b: seq<byte>)
    ensures ByteOps(a + b) == ByteOps(a) + ByteOps(b)
  {
  }

  lemma OneLiteral(a: Item, p: Placement)
    ensures LiteralAll([a], p) == Literal(a, p)
  {
    assert [a][1..] == [];
    assert Literal(a, p) + [] == Literal(a, p);
  }

  lemma TwoLiterals(a: Item, b: Item, p: Placement)
    ensures LiteralAll([a, b], p) == Literal(a, p) + Literal(b, p)
  {
    LiteralAppend([a], [b], p);
    assert [a] + [b] == [a, b];
    OneLiteral(a, p);
    OneLiteral(b, p);
  }

  lemma OneFinal(a: Item, b: Item, g: State)
    ensures FinalAll([a, b], g) == [FinalItem(a, g), FinalItem(b, g)] && FinalAll([a], g) == [FinalItem(a, g)]
  {
    assert [a, b][1..] == [b] && [b][1..] == [] && [a][1..] == [];
    assert FinalAll([b], g) == [FinalItem(b, g)] + FinalAll([], g);
    assert FinalAll([a], g) == [FinalItem(a, g)] + FinalAll([], g);
  }

  lemma ByteIsLiteral(b: byte, p: Placement)
    ensures Literal(Fixed(Byte(b)), p) == ByteOps([b])
  {
  }

  lemma InstructionIsCode(op: byte, e: Expr, c: Context, size: nat, g: State, p: Placement)
    ensures LiteralAll(FinalAll([Fixed(Byte(op)), Operand(e, c, size)], g), p)
         == ByteOps([op] + ToBytes(Meaning(e, FinalContext(c, g), p), size))
  {
    OneFinal(Fixed(Byte(op)), Operand(e, c, size), g);
    TwoLiterals(Fixed(Byte(op)), Operand(e, FinalContext(c, g), size), p);
    ByteIsLiteral(op, p);
    ByteOpsConcat([op], ToBytes(Meaning(e, FinalContext(c, g), p), size));
  }

  lemma {:induction false} DataIsCode(es: seq<Expr>, c: Context, size: nat, g: State, p: Placement)
    ensures LiteralAll(FinalAll(Data(es, c, size), g), p) == ByteOps(DataCode(es, FinalContext(c, g), size, p))
    decreases |es|
  {
    if es != [] {
      assert Data(es, c, size)[1..] == Data(es[1..], c, size);
      DataIsCode(es[1..], c, size, g, p);
      ByteOpsConcat(ToBytes(Meaning(es[0], FinalContext(c, g), p), size), DataCode(es[1..], FinalContext(c, g), size, p));
    }
  }

  /** The requests of a line that makes code are its bytes. */
  lemma CodeIsLiteral(b: Body, op: byte, c: Context, dirpag: int, g: State, p: Placement)
    requires Code(b, op, c, FinalContext(c, g), dirpag, p) != []
    ensures LiteralAll(FinalAll(ItemsOf(b, op, c, dirpag), g), p) == ByteOps(Code(b, op, c, FinalContext(c, g), dirpag, p))
  {
    if b.Inherent? {
      OneFinal(Fixed(Byte(op)), Fixed(Byte(op)), g);
      OneLiteral(Fixed(Byte(op)), p);
      ByteIsLiteral(op, p);
    } else if b.Branch? {
      var d := BranchByte(b.e, c);
      OneFinal(Fixed(Byte(op)), Fixed(Byte(d)), g);
      TwoLiterals(Fixed(Byte(op)), Fixed(Byte(d)), p);
      ByteIsLiteral(op, p);
      ByteIsLiteral(d, p);
      ByteOpsConcat([op], [d]);
      assert [op] + [d] == [op, d];
    } else if b.Bytes? {
      DataIsCode(b.es, c, 1, g, p);
    } else if b.Words? {
      DataIsCode(b.es, c, 2, g, p);
    } else {
      var size := if b.Memory? then (if Direct(b, c, dirpag) then 1 else 2) else if b.Immediate? && b.wide then 2 else 1;
      InstructionIsCode(op, b.e, c, size, g, p);
    }
  }

  // ---- the requests before and after a line

  lemma {:induction false} ItemsSplit(lines: seq<Line>, ops: seq<byte>, st: State, setup: Setup, i: nat)
    requires st.Valid() && |ops| == |lines| && i < |lines|
    ensures ProgramItems(lines, ops, st, setup)
         == ProgramItems(lines[..i], ops[..i], st, setup)
            + (ItemsOf(lines[i].body, ops[i], Last(lines[i], Run(lines[..i], st, setup, true), setup), setup.dirpag)
               + ProgramItems(lines[i + 1..], ops[i + 1..], Step(lines[i], Run(lines[..i], st, setup, true), setup, true), setup))
    decreases i
  {
    if i == 0 {
      assert lines[..0] == [];
      assert lines[0 + 1..] == lines[1..] && ops[0 + 1..] == ops[1..];
    } else {
      var st' := Step(lines[0], st, setup, true);
      ItemsSplit(lines[1..], ops[1..], st', setup, i - 1);
      assert lines[..i][1..] == lines[1..][..i - 1] && ops[..i][1..] == ops[1..][..i - 1] && lines[..i][0] == lines[0];
      assert lines[1..][i - 1 + 1..] == lines[i + 1..] && ops[1..][i - 1 + 1..] == ops[i + 1..];
      Assoc(ItemsOf(lines[0].body, ops[0], Last(lines[0], st, setup), setup.dirpag),
            ProgramItems(lines[1..][..i - 1], ops[1..][..i - 1], st', setup),
            ItemsOf(lines[i].body, ops[i], Last(lines[i], Run(lines[..i], st, setup, true), setup), setup.dirpag)
            + ProgramItems(lines[i + 1..], ops[i + 1..], Step(lines[i], Run(lines[..i], st, setup, true), setup, true), setup));
    }
  }

  lemma {:induction false} RunSplits(lines: seq<Line>, i: nat, st: State, setup: Setup, last: bool)
    requires st.Valid() && i <= |lines|
    ensures Run(lines, st, setup, last) == Run(lines[i..], Run(lines[..i], st, setup, last), setup, last)
    decreases i
  {
    if i == 0 {
      assert lines[0..] == lines && lines[..0] == [];
    } else {
      assert lines[..i][1..] == lines[1..][..i - 1] && lines[1..][i - 1..] == lines[i..];
      RunSplits(lines[1..], i - 1, Step(lines[0], st, setup, last), setup, last);
    }
  }

  lemma {:induction false} TogetherAt(lines: seq<Line>, i: nat, a: State, b: State, f: State, setup: Setup)
    requires Together(lines, a, b, f, setup) && i <= |lines|
    ensures Together(lines[i..], Run(lines[..i], a, setup, false), Run(lines[..i], b, setup, true), f, setup)
    decreases i
  {
    if i == 0 {
      assert lines[0..] == lines && lines[..0] == [];
    } else {
      assert lines[..i][1..] == lines[1..][..i - 1] && lines[1..][i - 1..] == lines[i..];
      TogetherNext(lines, a, b, f, setup);
      TogetherAt(lines[1..], i - 1, Step(lines[0], a, setup, false), Step(lines[0], b, setup, true), f, setup);
    }
  }

  // ---- literal and compiled requests move alike

  lemma LiteralMoves(k: Counters, i: Item, p: Placement, externals: seq<string>)
    requires k.Valid() && Accepted(i, p, externals) && AllAllowed(Compiled(i, externals))
    ensures AllAllowed(Literal(i, p)) && Moved(k, Literal(i, p)) == Moved(k, Compiled(i, externals))
  {
    if i.Operand? {
      OperandIsSound(i.e, i.c, p);
      MovedBytes(k, ToBytes(Meaning(i.e, i.c, p), i.size));
      OperandMoves(k, i.e, i.c, i.size, externals);
    }
  }

  lemma {:induction false} LiteralsMove(k: Counters, items: seq<Item>, p: Placement, externals: seq<string>)
    requires k.Valid() && AllAccepted(items, p, externals) && AllAllowed(CompiledAll(items, externals))
    ensures AllAllowed(LiteralAll(items, p)) && Moved(k, LiteralAll(items, p)) == Moved(k, CompiledAll(items, externals))
    decreases |items|
  {
    if items != [] {
      var first, rest := Compiled(items[0], externals), CompiledAll(items[1..], externals);
      AllowedParts(first, rest);
      LiteralMoves(k, items[0], p, externals);
      LiteralsMove(Moved(k, first), items[1..], p, externals);
      MovedAppend(k, first, rest);
      MovedAppend(k, Literal(items[0], p), LiteralAll(items[1..], p));
    }
  }

  lemma AllowedParts(a: seq<Request>, b: seq<Request>)
    requires AllAllowed(a + b)
    ensures AllAllowed(a) && AllAllowed(b)
  {
    forall r <- a
      ensures Allowed(r)
    {
      assert r in a + b;
    }
    forall r <- b
      ensures Allowed(r)
    {
      assert r in a + b;
    }
  }

  lemma {:induction false} FitAfter(pending: int, xs: seq<Request>, rest: seq<Request>)
    requires xs != [] && forall r <- xs :: !r.Skip?
    ensures RunsFit(pending, xs + rest) <==> 0 <= pending < WORD && RunsFit(0, rest)
    decreases |xs|
  {
    assert (xs + rest)[1..] == xs[1..] + rest;
    if |xs| == 1 {
      assert xs[1..] + rest == rest;
    } else {
      FitAfter(0, xs[1..], rest);
    }
  }

  lemma {:induction false} LiteralsFit(pending: int, items: seq<Item>, p: Placement, externals: seq<string>)
    requires AllAccepted(items, p, externals)
    ensures RunsFit(pending, LiteralAll(items, p)) <==> RunsFit(pending, CompiledAll(items, externals))
    decreases |items|
  {
    if items != [] {
      var i, literal, compiled := items[0], LiteralAll(items[1..], p), CompiledAll(items[1..], externals);
      if i.Fixed? && i.request.Skip? {
        assert ([i.request] + literal)[1..] == literal && ([i.request] + compiled)[1..] == compiled;
        LiteralsFit(pending + i.request.n, items[1..], p, externals);
      } else {
        LiteralsFit(0, items[1..], p, externals);
        FitAfter(pending, Literal(i, p), literal);
        FitAfter(pending, Compiled(i, externals), compiled);
      }
    }
  }

  // ---- where a line's bytes lie

  lemma {:induction false} AcceptedParts(a: seq<Item>, b: seq<Item>, p: Placement, externals: seq<string>)
    requires AllAccepted(a + b, p, externals)
    ensures AllAccepted(a, p, externals) && AllAccepted(b, p, externals)
    decreases |a|
  {
    if a == [] {
      assert a + b == b;
    } else {
      assert (a + b)[1..] == a[1..] + b;
      AcceptedParts(a[1..], b, p, externals);
    }
  }

  lemma {:induction false} HomeOrgsPrefix(lines: seq<Line>, cur: bv4, i: nat)
    requires HomeOrgs(lines, cur) && i <= |lines|
    ensures HomeOrgs(lines[..i], cur)
    decreases i
  {
    if i > 0 {
      assert lines[..i][1..] == lines[1..][..i - 1];
      HomeOrgsPrefix(lines[1..], NextCur(lines[0], cur), i - 1);
    }
  }

  /** The requests before line i. */
  ghost function Prefix(src: SourceFile, i: nat, externals: seq<string>): seq<Request>
    requires |src.ops| == |src.lines| && i <= |src.lines|
  {
    CompiledAll(ProgramItems(src.lines[..i], src.ops[..i], src.LastStart(), src.setup), externals)
  }

  /** The object file's counters before line i. */
  lemma PositionFollows(src: SourceFile, i: nat, externals: seq<string>)
    requires src.WellFormed() && i <= |src.lines|
    ensures AllAllowed(Prefix(src, i, externals))
    ensures Follows(Moved(START, Prefix(src, i, externals)), src.Before(i))
  {
    LastPassStarts(src.lines, src.symbols, src.setup);
    HomeOrgsPrefix(src.lines, 0, i);
    ProgramFollows(src.lines[..i], src.ops[..i], src.LastStart(), src.setup, START, externals);
  }

  /** The bytes of line i, with every label replaced by its final address. */
  ghost function LineCode(src: SourceFile, i: nat, p: Placement): seq<byte>
    requires i < |src.lines| == |src.ops|
  {
    Code(src.lines[i].body, src.ops[i], src.At(i), FinalContext(src.At(i), src.Table()), src.setup.dirpag, p)
  }

  /** The requests before line i, its bytes, and the requests after it. */
  lemma LineSplits(src: SourceFile, i: nat, p: Placement, before: seq<Item>, after: seq<Item>)
    requires src.WellFormed() && src.Assembles() && i < |src.lines| && LineCode(src, i, p) != []
    requires Together(src.lines, Start(src.symbols), src.LastStart(), src.FirstPass(), src.setup)
    requires before == ProgramItems(src.lines[..i], src.ops[..i], src.LastStart(), src.setup)
    requires after == ProgramItems(src.lines[i + 1..], src.ops[i + 1..], Step(src.lines[i], src.Before(i), src.setup, true), src.setup)
    ensures src.Items() == before + (ItemsOf(src.lines[i].body, src.ops[i], src.At(i), src.setup.dirpag) + after)
    ensures LiteralAll(src.Items(), p) == LiteralAll(before, p) + (ByteOps(LineCode(src, i, p)) + LiteralAll(after, p))
  {
    var own := ItemsOf(src.lines[i].body, src.ops[i], src.At(i), src.setup.dirpag);
    ItemsSplit(src.lines, src.ops, src.LastStart(), src.setup, i);
    LiteralAppend(before, own + after, p);
    LiteralAppend(own, after, p);
    TogetherAt(src.lines, i, Start(src.symbols), src.LastStart(), src.FirstPass(), src.setup);
    RunSplits(src.lines, i, src.LastStart(), src.setup, true);
    LineIsFinal(src.lines[i..], src.ops[i], Run(src.lines[..i], Start(src.symbols), src.setup, false), src.Before(i),
                src.FirstPass(), src.setup, p);
    CodeIsLiteral(src.lines[i].body, src.ops[i], src.At(i), src.setup.dirpag, src.Table(), p);
  }

  ghost function LinkedSource(src: SourceFile, externals: seq<string>, file: map<int, byte>, m: ModuleLinker.Module):
    (o: Option<ModuleLinker.Linked>)
    requires m.Valid() && |src.ops| == |src.lines|
    ensures o.Some? ==> o.value.Valid()
  {
    ModuleLinker.LinkAll(Merged(0, CompiledAll(src.Items(), externals)), ModuleLinker.Begun(file), m)
  }

  /** The bytes of line i lie in the part of its segment, at the object file's counter, which is
      the location counter modulo the width of an offset. */
  lemma LineLands(src: SourceFile, i: nat, p: Placement, externals: seq<string>, file: map<int, byte>, m: ModuleLinker.Module)
    returns (k: Counters)
    requires src.WellFormed() && src.Assembles() && src.Fits(p, externals) && Places(m, p, externals)
    requires i < |src.lines| && LineCode(src, i, p) != []
    requires RunsFit(0, CompiledAll(src.Items(), externals)) && LinkedSource(src, externals, file, m).Some?
    ensures AllAllowed(Prefix(src, i, externals)) && k == Moved(START, Prefix(src, i, externals))
    ensures Follows(k, src.Before(i)) && 0 <= k.Lc()
    ensures k.Lc() + |LineCode(src, i, p)| <= |LinkedSource(src, externals, file, m).value.parts[k.cur]|
    ensures LinkedSource(src, externals, file, m).value.parts[k.cur][k.Lc()..k.Lc() + |LineCode(src, i, p)|] == LineCode(src, i, p)
  {
    var before := ProgramItems(src.lines[..i], src.ops[..i], src.LastStart(), src.setup);
    var after := ProgramItems(src.lines[i + 1..], src.ops[i + 1..], Step(src.lines[i], src.Before(i), src.setup, true), src.setup);
    var own := ItemsOf(src.lines[i].body, src.ops[i], src.At(i), src.setup.dirpag);
    SourceStarts(src, p, externals);
    LineSplits(src, i, p, before, after);
    PositionFollows(src, i, externals);
    k := Moved(START, Prefix(src, i, externals));
    ItemsLand(before, own + after, LineCode(src, i, p), LiteralAll(after, p), src.Items(), p, externals, file, m, k);
  }

  /** Bytes between the requests of accepted items lie where the compiled items before them reach. */
  lemma ItemsLand(before: seq<Item>, rest: seq<Item>, data: seq<byte>, after: seq<Request>, items: seq<Item>, p: Placement,
                  externals: seq<string>, file: map<int, byte>, m: ModuleLinker.Module, k: Counters)
    requires items == before + rest && AllAccepted(items, p, externals) && Places(m, p, externals) && data != []
    requires LiteralAll(items, p) == LiteralAll(before, p) + (ByteOps(data) + after)
    requires AllAllowed(CompiledAll(before, externals)) && k == Moved(START, CompiledAll(before, externals))
    requires RunsFit(0, CompiledAll(items, externals))
    requires ModuleLinker.LinkAll(Merged(0, CompiledAll(items, externals)), ModuleLinker.Begun(file), m).Some?
    ensures 0 <= k.Lc() && k.Lc() + |data|
         <= |ModuleLinker.LinkAll(Merged(0, CompiledAll(items, externals)), ModuleLinker.Begun(file), m).value.parts[k.cur]|
    ensures ModuleLinker.LinkAll(Merged(0, CompiledAll(items, externals)), ModuleLinker.Begun(file), m)
              .value.parts[k.cur][k.Lc()..k.Lc() + |data|] == data
  {
    AcceptedParts(before, rest, p, externals);
    LiteralsMove(START, before, p, externals);
    LiteralsFit(0, items, p, externals);
    RunsFitPrefix(0, LiteralAll(before, p), ByteOps(data) + after);
    ProgramLinks(items, 0, m, p, externals, ModuleLinker.Begun(file));
    BytesLand(LiteralAll(before, p), data, after, file, m, k);
  }

  /** Each byte of the line is in the part of its segment, at its location counter, when the part
      has at most 65536 bytes. */
  lemma LineInPart(src: SourceFile, i: nat, p: Placement, externals: seq<string>, file: map<int, byte>, m: ModuleLinker.Module, j: nat)
    requires src.WellFormed() && src.Assembles() && src.Fits(p, externals) && Places(m, p, externals)
    requires i < |src.lines| && j < |LineCode(src, i, p)|
    requires RunsFit(0, CompiledAll(src.Items(), externals)) && LinkedSource(src, externals, file, m).Some?
    requires |LinkedSource(src, externals, file, m).value.parts[src.Before(i).cur as nat]| <= WORD
    ensures 0 <= src.Before(i).here.lc + j < |LinkedSource(src, externals, file, m).value.parts[src.Before(i).cur as nat]|
    ensures LinkedSource(src, externals, file, m).value.parts[src.Before(i).cur as nat][src.Before(i).here.lc + j]
         == LineCode(src, i, p)[j]
  {
    var k := LineLands(src, i, p, externals, file, m);
    PlaceOfLine(k, src.Before(i));
    SliceAt(LinkedSource(src, externals, file, m).value.parts[k.cur], k.Lc(), LineCode(src, i, p), j);
  }

  lemma PlaceOfLine(k: Counters, st: State)
    requires Follows(k, st) && 0 <= k.Lc() < WORD
    ensures k.cur == st.cur as nat && k.Lc() == st.here.lc
  {
  }

  lemma LinkedHolds(src: SourceFile, externals: seq<string>, file: map<int, byte>, m: ModuleLinker.Module)
    requires |src.ops| == |src.lines| && m.Valid() && LinkedSource(src, externals, file, m).Some?
    requires ModuleLinker.PartsApart(LinkedSource(src, externals, file, m).value.parts, m)
    ensures ModuleLinker.Holds(LinkedSource(src, externals, file, m).value, m)
  {
    ModuleLinker.PartsAreWritten(Merged(0, CompiledAll(src.Items(), externals)), ModuleLinker.Begun(file), m);
  }

  lemma PartFetch(st: ModuleLinker.Linked, m: ModuleLinker.Module, seg: nat, off: nat)
    requires st.Valid() && m.Valid() && ModuleLinker.Holds(st, m) && seg < 16 && !m.discard[seg] && off < |st.parts[seg]|
    ensures Fetch(st.file, m.Start(seg) + off) == Some(st.parts[seg][off])
  {
    assert ModuleLinker.PartHolds(st.file, m.Start(seg), st.parts[seg]);
  }

  lemma SliceAt(part: seq<byte>, at: nat, code: seq<byte>, j: nat)
    requires at + |code| <= |part| && part[at..at + |code|] == code && j < |code|
    ensures part[at + j] == code[j]
  {
    assert part[at..at + |code|][j] == part[at + j];
  }

  /** In the output file line i lies at the address of its segment's part plus its location
      counter, when parts have at most 65536 bytes, as the object format requires. */
  lemma LineIsInFile(src: SourceFile, i: nat, p: Placement, externals: seq<string>, file: map<int, byte>, m: ModuleLinker.Module, j: nat)
    requires src.WellFormed() && src.Assembles() && src.Fits(p, externals) && Places(m, p, externals)
    requires i < |src.lines| && j < |LineCode(src, i, p)|
    requires RunsFit(0, CompiledAll(src.Items(), externals)) && LinkedSource(src, externals, file, m).Some?
    requires ModuleLinker.PartsApart(LinkedSource(src, externals, file, m).value.parts, m)
    requires |LinkedSource(src, externals, file, m).value.parts[src.Before(i).cur as nat]| <= WORD
    requires !m.discard[src.Before(i).cur as nat]
    ensures Fetch(LinkedSource(src, externals, file, m).value.file,
                  m.header + m.segadj[src.Before(i).cur as nat] + (m.segaddr[src.Before(i).cur as nat] + src.Before(i).here.lc) + j)
         == Some(LineCode(src, i, p)[j])
  {
    var linked, seg := LinkedSource(src, externals, file, m).value, src.Before(i).cur as nat;
    LineInPart(src, i, p, externals, file, m, j);
    LinkedHolds(src, externals, file, m);
    PartFetch(linked, m, seg, src.Before(i).here.lc + j);
  }

  // ---- branches

  /** A value that an errorless directive needs is defined. */
  lemma NeededIsDefined(l: Line, st: State, setup: Setup)
    requires GoodState(st, setup) && GoodLine(l) && Errorless(l, Last(l, st, setup)) && !st.here.tag.und
    requires l.lab.Some? ==> Look(l.lab.value, st, setup).known
    requires l.body.Space? || l.body.Align? || l.body.Org?
    ensures !Absolute(l.body.e, Last(l, st, setup)).tag.und
  {
    var c := Last(l, st, setup);
    assert l.body.e in Operands(l.body);
    ContextIsSane(l, st, setup);
    ShortBranch.DefinedWhenAccepted(l.body.e, c);
    OpenedContextIsGood(l, st, setup, true);
    ValueIsGood(l.body.e, c);
  }

  ghost predicate Defined(st: State) {
    !st.here.tag.und && forall c <- st.saved :: !c.tag.und
  }

  lemma DirectiveDefines(l: Line, c: Context, st: State, setup: Setup)
    requires st.Valid() && Defined(st)
    requires l.body.Space? || l.body.Align? || l.body.Org? ==> !Absolute(l.body.e, c).tag.und
    ensures Defined(Directive(l, c, st, setup))
  {
    if l.body.Loc? {
      forall k <- SwitchTo(l.body.seg, st).saved
        ensures !k.tag.und
      {
        assert k == st.here || k in st.saved;
      }
      assert SwitchTo(l.body.seg, st).saved[l.body.seg as nat] in SwitchTo(l.body.seg, st).saved;
    }
  }

  lemma StepDefinesCounters(l: Line, st: State, setup: Setup)
    requires GoodState(st, setup) && GoodLine(l) && Errorless(l, Last(l, st, setup)) && Defined(st)
    requires l.lab.Some? ==> Look(l.lab.value, st, setup).known
    ensures Defined(Step(l, st, setup, true))
  {
    if l.body.Space? || l.body.Align? || l.body.Org? {
      NeededIsDefined(l, st, setup);
    }
    var read := Mentioned(Operands(l.body), Opened(l, st, setup, true), setup);
    OpenedBinds(l, st, setup, true);
    DirectiveDefines(l, Last(l, st, setup), read, setup);
    StepBinds(l, Last(l, st, setup), read, st, setup, true);
  }

  lemma {:induction false} RunDefinesCounters(lines: seq<Line>, st: State, setup: Setup, i: nat)
    requires GoodState(st, setup) && GoodLines(lines) && HomeOrgs(lines, st.cur) && LabelsKnown(lines, st, setup)
    requires AllErrorless(lines, st, setup) && Defined(st) && i <= |lines|
    ensures Defined(Run(lines[..i], st, setup, true))
    decreases i
  {
    if i > 0 {
      var l := lines[0];
      assert l in lines && lines[..i][1..] == lines[1..][..i - 1] && lines[..i][0] == l;
      StepDefinesCounters(l, st, setup);
      StepIsGood(l, st, setup, true);
      StepCur(l, st, setup, true);
      LabelsStayKnown(lines, l, st, setup);
      RunDefinesCounters(lines[1..], Step(l, st, setup, true), setup, i - 1);
    }
  }

  lemma {:induction false} ErrorlessAt(lines: seq<Line>, st: State, setup: Setup, p: Placement, externals: seq<string>, i: nat)
    requires st.Valid() && AllErrorless(lines, st, setup) && LinesFit(lines, st, setup, p, externals) && i < |lines|
    ensures Errorless(lines[i], Last(lines[i], Run(lines[..i], st, setup, true), setup))
    ensures forall e <- Operands(lines[i].body) :: OperandFits(e, Last(lines[i], Run(lines[..i], st, setup, true), setup), p, externals)
    decreases i
  {
    if i == 0 {
      assert lines[..0] == [];
    } else {
      assert lines[..i][1..] == lines[1..][..i - 1] && lines[..i][0] == lines[0];
      ErrorlessAt(lines[1..], Step(lines[0], st, setup, true), setup, p, externals, i - 1);
    }
  }

  /** An operand of line i means what it means in the table that the pass ends with. */
  lemma LineOperandIsFinal(src: SourceFile, i: nat, e: Expr, p: Placement)
    requires src.WellFormed() && src.Assembles() && i < |src.lines| && !src.lines[i].body.Equ? && e in Operands(src.lines[i].body)
    ensures Meaning(e, src.At(i), p) == Meaning(e, FinalContext(src.At(i), src.Table()), p)
  {
    TogetherStarts(src.lines, src.symbols, src.setup);
    TogetherAt(src.lines, i, Start(src.symbols), src.LastStart(), src.FirstPass(), src.setup);
    RunSplits(src.lines, i, src.LastStart(), src.setup, true);
    OperandIsFinal(src.lines[i..], Run(src.lines[..i], Start(src.symbols), src.setup, false), src.Before(i), src.FirstPass(),
                   src.setup, e, p);
  }

  /** The state before a line of an assembled source. */
  lemma LineStarts(src: SourceFile, i: nat)
    requires src.WellFormed() && src.Assembles() && i < |src.lines|
    ensures GoodState(src.Before(i), src.setup) && Defined(src.Before(i)) && GoodLine(src.lines[i])
    ensures Sane(src.At(i)) && WellTagged(src.At(i)) && !src.At(i).lcTag.und
  {
    TogetherStarts(src.lines, src.symbols, src.setup);
    LastPassStarts(src.lines, src.symbols, src.setup);
    TogetherAt(src.lines, i, Start(src.symbols), src.LastStart(), src.FirstPass(), src.setup);
    RunDefinesCounters(src.lines, src.LastStart(), src.setup, i);
    assert src.lines[i] in src.lines;
    RunDefinesLabel(src, i);
    ContextIsSane(src.lines[i], src.Before(i), src.setup);
  }

  /** The displacement that an assembled branch line ends with leads to its target: the address
      behind the line plus the sign-extended byte is the final address of the operand. */
  lemma BranchLineReaches(src: SourceFile, i: nat, p: Placement, externals: seq<string>)
    requires src.WellFormed() && src.Assembles() && src.Fits(p, externals)
    requires i < |src.lines| && src.lines[i].body.Branch?
    ensures |LineCode(src, i, p)| == 2
    ensures Wrap(src.At(i).lc + BaseOf(src.At(i).lcTag, p) + 2 + ShortBranch.SignExtended(LineCode(src, i, p)[1]))
         == Meaning(src.lines[i].body.e, FinalContext(src.At(i), src.Table()), p)
  {
    var e := src.lines[i].body.e;
    assert e in Operands(src.lines[i].body);
    LineStarts(src, i);
    ErrorlessAt(src.lines, src.LastStart(), src.setup, p, externals, i);
    ShortBranch.BranchReachesTarget(e, src.At(i), p);
    LineOperandIsFinal(src, i, e, p);
  }

  lemma RunDefinesLabel(src: SourceFile, i: nat)
    requires src.WellFormed() && i < |src.lines|
    ensures src.lines[i].lab.Some? ==> Look(src.lines[i].lab.value, src.Before(i), src.setup).known
  {
    LastPassStarts(src.lines, src.symbols, src.setup);
    assert src.lines[i] in src.lines;
    if src.lines[i].lab.Some? {
      RunDefines(src.lines[..i], src.LastStart(), src.setup, true, src.lines[i].lab.value);
    }
  }
}
