/** What the labels, operands and directives of an assembled source mean: a label is the address of
    its line, EQU gives its value, a one-byte address is in the direct page, and location counters
    move by what the lines hold. */
module SourceMeaning {
  import opened Prelude
  import opened AsmExpression
  import opened OperandMeaning
  import opened Assembly
  import opened TwoPass
  import opened AssemblyTags
  import opened FinalTable
  import opened ObjectCode
  import opened WholeProgram
  import opened SourceBytes
  import ShortBranch

  // ---- from one line to the next

  lemma BeforeNext(src: SourceFile, i: nat)
    requires i < |src.lines|
    ensures src.Before(i + 1) == Step(src.lines[i], src.Before(i), src.setup, true)
  {
    RunSplits(src.lines[..i + 1], i, src.LastStart(), src.setup, true);
    assert src.lines[..i + 1][..i] == src.lines[..i] && src.lines[..i + 1][i..] == [src.lines[i]];
    var st := src.Before(i);
    assert Run([src.lines[i]], st, src.setup, true)
        == Run([src.lines[i]][1..], Step(src.lines[i], st, src.setup, true), src.setup, true);
  }

  /** The context that line j evaluates its operands in, with the symbols that the last pass ends with. */
  ghost function AtEnd(src: SourceFile, j: nat): Context
    requires j < |src.lines|
  {
    FinalContext(src.At(j), src.Table())
  }

  lemma FinalLook(src: SourceFile, j: nat, x: string)
    requires j < |src.lines|
    ensures AtEnd(src, j).Look(x) == Look(x, src.Table(), src.setup)
  {
  }

  /** What an operand may use before line i has the same meaning when the pass is over. */
  lemma LastsFrom(src: SourceFile, i: nat, x: string)
    requires src.WellFormed() && src.Assembles() && i <= |src.lines|
    requires Look(x, Run(src.lines[..i], Start(src.symbols), src.setup, false), src.setup).known
             || Readable(Look(x, src.Before(i), src.setup))
    ensures SameMeaning(Look(x, src.Before(i), src.setup), Look(x, src.Table(), src.setup))
  {
    TogetherStarts(src.lines, src.symbols, src.setup);
    TogetherAt(src.lines, i, Start(src.symbols), src.LastStart(), src.FirstPass(), src.setup);
    RunSplits(src.lines, i, src.LastStart(), src.setup, true);
    RunLasts(src.lines[i..], Run(src.lines[..i], Start(src.symbols), src.setup, false), src.Before(i), src.FirstPass(),
             src.setup, x);
  }

  lemma LabelStays(src: SourceFile, i: nat, x: string)
    requires src.WellFormed() && src.Assembles() && i < |src.lines| && src.lines[i].lab == Some(x)
    ensures SameMeaning(Look(x, src.Before(i + 1), src.setup), Look(x, src.Table(), src.setup))
  {
    assert src.lines[..i + 1][i] == src.lines[i];
    assert exists l <- src.lines[..i + 1] :: l.lab == Some(x);
    RunDefines(src.lines[..i + 1], Start(src.symbols), src.setup, false, x);
    LastsFrom(src, i + 1, x);
  }

  // ---- labels

  /** The final address of the place that the location counter of line i is at. */
  ghost function Address(src: SourceFile, i: nat, p: Placement): int
    requires i <= |src.lines|
  {
    var here := src.Before(i).here;
    Wrap(here.lc + (if here.tag.rel then p.base(src.Before(i).cur) else 0))
  }

  lemma SameMeans(s: Symbol, t: Symbol, x: string, c: Context, p: Placement, v: int)
    requires SameMeaning(s, t) && c.Look(x) == t && !s.tag.imp
    requires v == Wrap(s.value + BaseOf(s.tag, p))
    ensures Means(Id(x), c, p, v)
  {
    LeafMeans(Id(x), c, p, v);
  }

  /** A label of line i means at the end what it meant behind the line. */
  lemma LabelMeans(src: SourceFile, i: nat, x: string, j: nat, p: Placement, v: int)
    requires src.WellFormed() && src.Assembles() && i < |src.lines| && j < |src.lines| && src.lines[i].lab == Some(x)
    requires !Look(x, src.Before(i + 1), src.setup).tag.imp
    requires v == Wrap(Look(x, src.Before(i + 1), src.setup).value + BaseOf(Look(x, src.Before(i + 1), src.setup).tag, p))
    ensures Means(Id(x), AtEnd(src, j), p, v)
  {
    LabelStays(src, i, x);
    FinalLook(src, j, x);
    SameMeans(Look(x, src.Before(i + 1), src.setup), Look(x, src.Table(), src.setup), x, AtEnd(src, j), p, v);
  }

  /** A label means the address of its line, wherever it is used. */
  lemma LabelIsAddress(src: SourceFile, i: nat, x: string, j: nat, p: Placement)
    requires src.WellFormed() && src.Assembles() && i < |src.lines| && j < |src.lines|
    requires src.lines[i].lab == Some(x) && !src.lines[i].body.Equ?
    ensures Means(Id(x), AtEnd(src, j), p, Address(src, i, p))
  {
    LineStarts(src, i);
    RunDefinesLabel(src, i);
    BeforeNext(src, i);
    LabelStep(src.lines[i], src.Before(i), src.setup, true, x);
    LabelMeans(src, i, x, j, p, Address(src, i, p));
  }

  /** The symbol for the location counter means the address of the line that uses it. */
  lemma HereIsAddress(src: SourceFile, i: nat, p: Placement)
    requires src.WellFormed() && src.Assembles() && i < |src.lines|
    ensures Means(Here, AtEnd(src, i), p, Address(src, i, p))
  {
    LineStarts(src, i);
    OpenedBinds(src.lines[i], src.Before(i), src.setup, true);
    HereOfLine(src.lines[i], src.Before(i), src.setup);
    LeafMeans(Here, AtEnd(src, i), p, Address(src, i, p));
  }

  lemma HereOfLine(l: Line, st: State, setup: Setup)
    ensures Last(l, st, setup).lc == st.here.lc && Last(l, st, setup).lcTag == st.here.tag
  {
  }

  lemma EquAccepted(src: SourceFile, i: nat, p: Placement, externals: seq<string>)
    requires src.WellFormed() && src.Assembles() && src.Fits(p, externals) && i < |src.lines| && src.lines[i].body.Equ?
    ensures !Eval(src.lines[i].body.e, src.At(i)).tag.imp && InRange(Eval(src.lines[i].body.e, src.At(i)).offset)
    ensures Final(Eval(src.lines[i].body.e, src.At(i)), p) == Meaning(src.lines[i].body.e, src.At(i), p)
    ensures Means(src.lines[i].body.e, src.At(i), p, Meaning(src.lines[i].body.e, src.At(i), p))
  {
    var e := src.lines[i].body.e;
    LineStarts(src, i);
    ErrorlessAt(src.lines, src.LastStart(), src.setup, p, externals, i);
    assert e in Operands(src.lines[i].body);
    OperandIsSound(e, src.At(i), p);
    OperandDenotes(e, src.At(i), p);
  }

  lemma EquDefines(src: SourceFile, i: nat, x: string, v: Value)
    requires src.WellFormed() && src.Assembles() && i < |src.lines|
    requires src.lines[i].lab == Some(x) && src.lines[i].body.Equ? && v == Eval(src.lines[i].body.e, src.At(i)) && !v.tag.imp
    ensures Look(x, src.Before(i + 1), src.setup).value == v.offset && !Look(x, src.Before(i + 1), src.setup).tag.imp
    ensures Look(x, src.Before(i + 1), src.setup).tag.rel == v.tag.rel && Look(x, src.Before(i + 1), src.setup).tag.seg == v.tag.seg
  {
    BeforeNext(src, i);
    EquStep(src.lines[i], src.Before(i), src.setup, true, x, v);
  }

  lemma AlikeFinal(s: Symbol, v: Value, p: Placement)
    requires s.value == v.offset && s.tag.rel == v.tag.rel && s.tag.seg == v.tag.seg && !v.tag.imp && InRange(v.offset)
    ensures Final(v, p) == Wrap(s.value + BaseOf(s.tag, p))
  {
  }

  /** EQU makes its label mean what its expression means. */
  lemma EquIsMeaning(src: SourceFile, i: nat, x: string, j: nat, p: Placement, externals: seq<string>)
    requires src.WellFormed() && src.Assembles() && src.Fits(p, externals) && i < |src.lines| && j < |src.lines|
    requires src.lines[i].lab == Some(x) && src.lines[i].body.Equ?
    ensures Means(src.lines[i].body.e, src.At(i), p, Meaning(src.lines[i].body.e, src.At(i), p))
    ensures Means(Id(x), AtEnd(src, j), p, Meaning(src.lines[i].body.e, src.At(i), p))
  {
    var v := Eval(src.lines[i].body.e, src.At(i));
    EquAccepted(src, i, p, externals);
    EquDefines(src, i, x, v);
    AlikeFinal(Look(x, src.Before(i + 1), src.setup), v, p);
    LabelMeans(src, i, x, j, p, Final(v, p));
  }

  /** A name that IMPORT declares means the value of the imported symbol. */
  lemma ImportIsImport(src: SourceFile, i: nat, x: string, j: nat, p: Placement)
    requires src.WellFormed() && src.Assembles() && i < |src.lines| && j < |src.lines|
    requires src.lines[i].body == Import(x) && !Look(x, src.Before(i), src.setup).reserved
    ensures Means(Id(x), AtEnd(src, j), p, Wrap(p.imports(x)))
  {
    LineStarts(src, i);
    BeforeNext(src, i);
    ImportedHere(src, i, x);
    LastsFrom(src, i + 1, x);
    FinalLook(src, j, x);
    LeafMeans(Id(x), AtEnd(src, j), p, Wrap(p.imports(x)));
  }

  lemma ImportedHere(src: SourceFile, i: nat, x: string)
    requires src.WellFormed() && src.Assembles() && i < |src.lines|
    requires src.lines[i].body == Import(x) && !Look(x, src.Before(i), src.setup).reserved
    ensures Look(x, src.Before(i + 1), src.setup).tag.imp && !Look(x, src.Before(i + 1), src.setup).reserved
  {
    var l, st := src.lines[i], src.Before(i);
    LineStarts(src, i);
    BeforeNext(src, i);
    ErrorlessLine(src.lines, src.LastStart(), src.setup, i);
    LookOpened(l, st, st, src.setup, x);
    ImportStep(l, st, src.setup, true, x);
  }

  lemma {:induction false} ErrorlessLine(lines: seq<Line>, st: State, setup: Setup, i: nat)
    requires st.Valid() && AllErrorless(lines, st, setup) && i < |lines|
    ensures Errorless(lines[i], Last(lines[i], Run(lines[..i], st, setup, true), setup))
    decreases i
  {
    if i == 0 {
      assert lines[..0] == [];
    } else {
      assert lines[..i][1..] == lines[1..][..i - 1] && lines[..i][0] == lines[0];
      ErrorlessLine(lines[1..], Step(lines[0], st, setup, true), setup, i - 1);
    }
  }

  // ---- operands

  lemma {:induction false} DividesLasts(e: Expr, c: Context, d: Context, p: Placement)
    requires c.last && !Eval(e, c).bad && d == c.(symbols := d.symbols) && Divides(e, c, p)
    requires forall x | Readable(c.Look(x)) :: SameMeaning(c.Look(x), d.Look(x))
    ensures Divides(e, d, p)
  {
    match e
    case Neg(a) => DividesLasts(a, c, d, p);
    case Not(a) => DividesLasts(a, c, d, p);
    case Bin(op, a, b) =>
      PartsAccepted(op, a, b, c);
      DividesLasts(a, c, d, p);
      DividesLasts(b, c, d, p);
      MeaningLasts(b, c, d, p);
    case _ =>
  }

  lemma FinalNames(src: SourceFile, i: nat)
    requires src.WellFormed() && src.Assembles() && i < |src.lines| && !src.lines[i].body.Equ?
    ensures forall x | Readable(src.At(i).Look(x)) :: SameMeaning(src.At(i).Look(x), AtEnd(src, i).Look(x))
  {
    TogetherStarts(src.lines, src.symbols, src.setup);
    TogetherAt(src.lines, i, Start(src.symbols), src.LastStart(), src.FirstPass(), src.setup);
    RunSplits(src.lines, i, src.LastStart(), src.setup, true);
    NamesAreFinal(src.lines[i..], Run(src.lines[..i], Start(src.symbols), src.setup, false), src.Before(i), src.FirstPass(),
                  src.setup, src.At(i), AtEnd(src, i));
  }

  /** What is known of an operand of an assembled line. */
  lemma OperandAccepted(src: SourceFile, i: nat, e: Expr, p: Placement, externals: seq<string>)
    requires src.WellFormed() && src.Assembles() && src.Fits(p, externals) && i < |src.lines|
    requires !src.lines[i].body.Equ? && e in Operands(src.lines[i].body)
    ensures !Eval(e, src.At(i)).bad && NumbersInRange(e) && Divides(e, src.At(i), p) && InRange(Eval(e, src.At(i)).offset)
    ensures Final(Eval(e, src.At(i)), p) == Meaning(e, AtEnd(src, i), p)
  {
    LineStarts(src, i);
    ErrorlessAt(src.lines, src.LastStart(), src.setup, p, externals, i);
    OperandIsSound(e, src.At(i), p);
    AcceptedDivides(e, src.At(i), p);
    LineOperandIsFinal(src, i, e, p);
  }

  /** The bytes of an operand are those of the value that the source expression denotes under the
      final symbol table. */
  lemma OperandMeans(src: SourceFile, i: nat, e: Expr, p: Placement, externals: seq<string>)
    requires src.WellFormed() && src.Assembles() && src.Fits(p, externals) && i < |src.lines|
    requires !src.lines[i].body.Equ? && e in Operands(src.lines[i].body)
    ensures Means(e, AtEnd(src, i), p, Meaning(e, AtEnd(src, i), p))
    ensures forall v | Means(e, AtEnd(src, i), p, v) :: v == Meaning(e, AtEnd(src, i), p)
  {
    OperandAccepted(src, i, e, p, externals);
    FinalNames(src, i);
    DividesLasts(e, src.At(i), AtEnd(src, i), p);
    MeaningMeans(e, AtEnd(src, i), p);
    forall v | Means(e, AtEnd(src, i), p, v)
      ensures v == Meaning(e, AtEnd(src, i), p)
    {
      MeansIsMeaning(e, AtEnd(src, i), p, v);
    }
  }

  // ---- direct and extended addresses

  /** The address is in the direct page. */
  predicate InPage(address: int, page: int) {
    256 * page <= address < 256 * page + 256
  }

  lemma LowBytes(n: int)
    ensures ToBytes(n, 1) == [(n % 256) as byte]
    ensures ToBytes(n, 2) == [(n / 256 % 256) as byte, (n % 256) as byte]
  {
    assert ToBytes(n, 1) == ToBytes(n / 256, 0) + [(n % 256) as byte];
    assert ToBytes(n / 256, 1) == ToBytes(n / 256 / 256, 0) + [(n / 256 % 256) as byte];
    assert ToBytes(n, 2) == ToBytes(n / 256, 1) + [(n % 256) as byte];
  }

  lemma WordOf(n: int)
    ensures n / 256 % 256 * 256 + n % 256 == n % 0x10000
  {
    ModuloIs(n, 0x10000, n / 256 / 256, n / 256 % 256 * 256 + n % 256);
  }

  /** An instruction with an address has one operand byte exactly when it has a direct mode and the
      address is marked short, or is absolute, known in the first pass, in the direct page and not
      marked long. An unmarked one-byte address is then right; a two-byte one always is. */
  lemma AddressIsRight(src: SourceFile, i: nat, p: Placement, externals: seq<string>)
    requires src.WellFormed() && src.Assembles() && src.Fits(p, externals) && i < |src.lines|
    requires src.lines[i].body.Memory?
    ensures |LineCode(src, i, p)| == 2 || |LineCode(src, i, p)| == 3
    ensures |LineCode(src, i, p)| == 2 <==>
              !src.lines[i].body.memory
              && (src.lines[i].body.short
                  || (!src.lines[i].body.long && !Eval(src.lines[i].body.e, src.At(i)).tag.fwd
                      && !Eval(src.lines[i].body.e, src.At(i)).tag.rel
                      && InPage(Meaning(src.lines[i].body.e, AtEnd(src, i), p), src.setup.dirpag)))
    ensures |LineCode(src, i, p)| == 2 && !src.lines[i].body.short ==>
              256 * src.setup.dirpag + LineCode(src, i, p)[1] as int == Meaning(src.lines[i].body.e, AtEnd(src, i), p)
    ensures |LineCode(src, i, p)| == 2 ==>
              LineCode(src, i, p)[1] as int == Meaning(src.lines[i].body.e, AtEnd(src, i), p) % 256
    ensures |LineCode(src, i, p)| == 3 ==>
              LineCode(src, i, p)[1] as int * 256 + LineCode(src, i, p)[2] as int
              == Meaning(src.lines[i].body.e, AtEnd(src, i), p) % 0x10000
  {
    var e := src.lines[i].body.e;
    assert e in Operands(src.lines[i].body);
    OperandAccepted(src, i, e, p, externals);
    LowBytes(Meaning(e, AtEnd(src, i), p));
    WordOf(Meaning(e, AtEnd(src, i), p));
    if !Eval(e, src.At(i)).tag.rel {
      AbsoluteFinal(Eval(e, src.At(i)), p);
    }
  }

  /** A branch has an opcode and a signed byte that leads from the next address to the target. */
  lemma BranchIsRight(src: SourceFile, i: nat, p: Placement, externals: seq<string>)
    requires src.WellFormed() && src.Assembles() && src.Fits(p, externals) && i < |src.lines|
    requires src.lines[i].body.Branch?
    ensures |LineCode(src, i, p)| == 2
    ensures Meaning(src.lines[i].body.e, AtEnd(src, i), p)
         == Wrap(Address(src, i, p) + 2 + (if LineCode(src, i, p)[1] < 128 then LineCode(src, i, p)[1] as int
                                           else LineCode(src, i, p)[1] as int - 256))
  {
    LineStarts(src, i);
    HereOfLine(src.lines[i], src.Before(i), src.setup);
    BranchLineReaches(src, i, p, externals);
    var here := src.Before(i).here;
    WrapAdds(here.lc + BaseOf(here.tag, p), 2 + ShortBranch.SignExtended(LineCode(src, i, p)[1]));
  }

  // ---- location counters

  /** How many bytes the lines of a segment have taken so far. */
  function CounterOf(st: State, s: bv4): int
    requires st.Valid()
  {
    if s == st.cur then st.here.lc else st.saved[s as nat].lc
  }

  lemma LocKeeps(l: Line, st: State, setup: Setup, s: bv4)
    requires GoodCounters(st) && l.body.Loc?
    ensures CounterOf(Step(l, st, setup, true), s) == CounterOf(st, s)
  {
    SegmentAfter(l, st, setup);
  }

  /** LOC leaves every counter as it is; other lines leave the counters of other segments. So a
      segment goes on where it was left. */
  lemma CountersStay(src: SourceFile, i: nat, s: bv4)
    requires src.WellFormed() && src.Assembles()
    requires i < |src.lines| && (src.lines[i].body.Loc? || s != src.Before(i).cur)
    ensures CounterOf(src.Before(i + 1), s) == CounterOf(src.Before(i), s)
  {
    var l, st := src.lines[i], src.Before(i);
    BeforeNext(src, i);
    LineStarts(src, i);
    if l.body.Loc? {
      LocKeeps(l, st, src.setup, s);
    } else if l.body.Org? {
      assert l.body.e in Operands(l.body);
      OperandsInRange(l, st, src.setup);
      OrgAfter(l, st, src.setup);
    } else {
      CountersAfter(l, st, src.setup);
    }
  }

  /** The line holds code or data. */
  predicate HoldsCode(b: Body) {
    !b.Space? && !b.Align? && !b.Org? && !b.Loc?
  }

  lemma {:induction false} DataLength(es: seq<Expr>, d: Context, size: nat, p: Placement)
    ensures |DataCode(es, d, size, p)| == size * |es|
    decreases |es|
  {
    if es != [] {
      DataLength(es[1..], d, size, p);
      assert size * |es| == size + size * (|es| - 1);
    }
  }

  /** After a line of code or data the counter stands behind its bytes. */
  lemma CodeMovesCounter(src: SourceFile, i: nat, p: Placement)
    requires src.WellFormed() && src.Assembles() && i < |src.lines| && HoldsCode(src.lines[i].body)
    ensures src.Before(i + 1).here.lc == Wrap(src.Before(i).here.lc + |LineCode(src, i, p)|)
  {
    var b := src.lines[i].body;
    BeforeNext(src, i);
    CountersAfter(src.lines[i], src.Before(i), src.setup);
    if b.Bytes? {
      DataLength(b.es, AtEnd(src, i), 1, p);
    } else if b.Words? {
      DataLength(b.es, AtEnd(src, i), 2, p);
    }
  }

  /** The value of RMB, ALIGN and ORG is the meaning of its operand. */
  lemma NeededMeans(src: SourceFile, i: nat, p: Placement, externals: seq<string>)
    requires src.WellFormed() && src.Assembles() && src.Fits(p, externals) && i < |src.lines|
    requires src.lines[i].body.Space? || src.lines[i].body.Align? || src.lines[i].body.Org?
    ensures !Absolute(src.lines[i].body.e, src.At(i)).tag.und && !src.At(i).lcTag.und
    ensures Absolute(src.lines[i].body.e, src.At(i)).offset == Meaning(src.lines[i].body.e, AtEnd(src, i), p)
    ensures src.At(i).lc == src.Before(i).here.lc && InRange(src.Before(i).here.lc)
    ensures InRange(Meaning(src.lines[i].body.e, AtEnd(src, i), p))
  {
    var l, st := src.lines[i], src.Before(i);
    assert l.body.e in Operands(l.body);
    LineStarts(src, i);
    RunDefinesLabel(src, i);
    ErrorlessLine(src.lines, src.LastStart(), src.setup, i);
    NeededIsDefined(l, st, src.setup);
    OperandAccepted(src, i, l.body.e, p, externals);
    AbsoluteFinal(Absolute(l.body.e, src.At(i)), p);
    HereOfLine(l, st, src.setup);
  }

  /** RMB moves the counter by its operand. */
  lemma SpaceMovesCounter(src: SourceFile, i: nat, p: Placement, externals: seq<string>)
    requires src.WellFormed() && src.Assembles() && src.Fits(p, externals) && i < |src.lines| && src.lines[i].body.Space?
    ensures src.Before(i + 1).here.lc == Wrap(src.Before(i).here.lc + Meaning(src.lines[i].body.e, AtEnd(src, i), p))
  {
    NeededMeans(src, i, p, externals);
    BeforeNext(src, i);
    CountersAfter(src.lines[i], src.Before(i), src.setup);
  }

  /** ORG moves the counter to its operand. */
  lemma OrgMovesCounter(src: SourceFile, i: nat, p: Placement, externals: seq<string>)
    requires src.WellFormed() && src.Assembles() && src.Fits(p, externals) && i < |src.lines| && src.lines[i].body.Org?
    ensures src.Before(i + 1).here.lc == Meaning(src.lines[i].body.e, AtEnd(src, i), p)
  {
    NeededMeans(src, i, p, externals);
    BeforeNext(src, i);
    LineStarts(src, i);
    OrgAfter(src.lines[i], src.Before(i), src.setup);
  }

  /** The least multiple of n at or after lc. */
  predicate IsAligned(next: int, lc: int, n: int)
    requires n != 0
  {
    lc <= next < lc + n && next % n == 0
  }

  lemma AlignSizeAligns(v: Value, lc: int)
    requires v.offset > 0 && !v.tag.und
    ensures IsAligned(lc + AlignSize(v, lc), lc, v.offset)
  {
    var n, q, r := v.offset, lc / v.offset, lc % v.offset;
    assert lc == n * q + r;
    if r == 0 {
      assert lc % n == 0;
    } else {
      assert lc + AlignSize(v, lc) == n * (q + 1) + 0 by {
        assert n * (q + 1) == n * q + n;
      }
      ModuloIs(lc + AlignSize(v, lc), n, q + 1, 0);
    }
  }

  /** ALIGN moves the counter to the next multiple of its operand. */
  lemma AlignMovesCounter(src: SourceFile, i: nat, p: Placement, externals: seq<string>) returns (next: int)
    requires src.WellFormed() && src.Assembles() && src.Fits(p, externals) && i < |src.lines| && src.lines[i].body.Align?
    requires Meaning(src.lines[i].body.e, AtEnd(src, i), p) != 0
    ensures IsAligned(next, src.Before(i).here.lc, Meaning(src.lines[i].body.e, AtEnd(src, i), p))
    ensures src.Before(i + 1).here.lc == Wrap(next)
  {
    NeededMeans(src, i, p, externals);
    BeforeNext(src, i);
    CountersAfter(src.lines[i], src.Before(i), src.setup);
    var v := Absolute(src.lines[i].body.e, src.At(i));
    next := src.Before(i).here.lc + AlignSize(v, src.Before(i).here.lc);
    AlignSizeAligns(v, src.Before(i).here.lc);
  }
}
