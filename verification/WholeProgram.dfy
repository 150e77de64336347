/** From the source lines to the linked bytes: the requests of the last pass keep step with the
    location counters, and linking them puts, at every line's address, its bytes with every label
    replaced by its final address. */
module WholeProgram {
  import opened Prelude
  import opened AsmExpression
  import opened Assembly
  import opened TwoPass
  import opened AssemblyTags
  import opened FinalTable
  import opened ObjectCode
  import opened ObjectWriter
  import opened SkipMerging
  import opened EndToEnd
  import opened LinkedPlaces
  import ShortBranch
  import ModuleLinker

  // ---- what a line asks for

  function Data(es: seq<Expr>, c: Context, size: nat): seq<Item> {
    if es == [] then [] else [Operand(es[0], c, size)] + Data(es[1..], c, size)
  }

  /** The displacement byte of a branch. */
  function BranchByte(e: Expr, c: Context): byte {
    var d := ShortBranch.Displacement(Eval(e, c), c);
    if d.None? then 0 else ToBytes(d.value, 1)[0]
  }

  /** An opcode and its operand, data, or a directive. */
  function ItemsOf(b: Body, op: byte, c: Context, dirpag: int): seq<Item> {
    match b
    case Inherent => [Fixed(Byte(op))]
    case Memory(_, _, _, e) => [Fixed(Byte(op)), Operand(e, c, if Direct(b, c, dirpag) then 1 else 2)]
    case Indexed(e) => [Fixed(Byte(op)), Operand(e, c, 1)]
    case Immediate(wide, e) => [Fixed(Byte(op)), Operand(e, c, if wide then 2 else 1)]
    case Branch(e) => [Fixed(Byte(op)), Fixed(Byte(BranchByte(e, c)))]
    case Bytes(es) => Data(es, c, 1)
    case Words(es) => Data(es, c, 2)
    case Space(_) => [Fixed(Skip(Size(b, c, dirpag)))]
    case Align(_) => [Fixed(Skip(Size(b, c, dirpag)))]
    case Org(e) => if Absolute(e, c).tag.und then [] else [Fixed(Skip(Absolute(e, c).offset - c.lc))]
    case Loc(seg) => if seg != c.lcTag.seg then [Fixed(SetSeg(seg as nat))] else []
    case _ => []
  }

  /** The requests of the last pass; `ops` gives each line its opcode. */
  function ProgramItems(lines: seq<Line>, ops: seq<byte>, st: State, setup: Setup): seq<Item>
    requires st.Valid() && |ops| == |lines|
    decreases |lines|
  {
    if lines == [] then []
    else ItemsOf(lines[0].body, ops[0], ContextOf(Opened(lines[0], st, setup, true), setup, true), setup.dirpag)
         + ProgramItems(lines[1..], ops[1..], Step(lines[0], st, setup, true), setup)
  }

  // ---- in step

  /** An operand takes its size, whatever it is. */
  lemma OperandMoves(k: Counters, e: Expr, c: Context, size: nat, externals: seq<string>)
    requires k.Valid() && (size == 1 || size == 2) && InRange(Eval(e, c).offset)
    ensures AllAllowed(Compiled(Operand(e, c, size), externals))
    ensures Moved(k, Compiled(Operand(e, c, size), externals)) == k.Add(size)
  {
    var v := Eval(e, c);
    if v.tag.rel {
      var r := Reloc(size, false, TargetOf(v, externals), v.offset);
      assert [r][1..] == [];
      assert Allowed(r);
    } else {
      MovedBytes(k, ToBytes(v.offset, size));
    }
  }

  lemma TwoItems(a: Item, b: Item, externals: seq<string>)
    ensures CompiledAll([a, b], externals) == Compiled(a, externals) + Compiled(b, externals)
    ensures CompiledAll([a], externals) == Compiled(a, externals)
  {
    assert [a, b][1..] == [b] && [b][1..] == [] && [a][1..] == [];
    assert CompiledAll([b], externals) == Compiled(b, externals) + CompiledAll([], externals);
    assert CompiledAll([a], externals) == Compiled(a, externals) + CompiledAll([], externals);
  }

  lemma ByteMoves(k: Counters, b: byte)
    requires k.Valid()
    ensures AllAllowed([Byte(b)]) && Moved(k, [Byte(b)]) == k.Add(1)
  {
    assert [Byte(b)][1..] == [];
  }

  /** An opcode and an operand. */
  lemma InstructionMoves(k: Counters, op: byte, e: Expr, c: Context, size: nat, externals: seq<string>)
    requires k.Valid() && (size == 1 || size == 2) && InRange(Eval(e, c).offset)
    ensures AllAllowed(CompiledAll([Fixed(Byte(op)), Operand(e, c, size)], externals))
    ensures Moved(k, CompiledAll([Fixed(Byte(op)), Operand(e, c, size)], externals)) == k.Add(1 + size)
  {
    TwoItems(Fixed(Byte(op)), Operand(e, c, size), externals);
    ByteMoves(k, op);
    OperandMoves(k.Add(1), e, c, size, externals);
    MovedAppend(k, [Byte(op)], Compiled(Operand(e, c, size), externals));
    AddTwice(k, 1, size);
  }

  lemma {:induction false} DataMoves(k: Counters, es: seq<Expr>, c: Context, size: nat, externals: seq<string>)
    requires k.Valid() && (size == 1 || size == 2) && forall e <- es :: InRange(Eval(e, c).offset)
    ensures AllAllowed(CompiledAll(Data(es, c, size), externals))
    ensures Moved(k, CompiledAll(Data(es, c, size), externals)) == k.Add(size * |es|)
    decreases |es|
  {
    if es == [] {
      assert k.Add(0) == k;
    } else {
      var first, rest := Compiled(Operand(es[0], c, size), externals), CompiledAll(Data(es[1..], c, size), externals);
      assert Data(es, c, size)[1..] == Data(es[1..], c, size);
      OperandMoves(k, es[0], c, size, externals);
      DataMoves(k.Add(size), es[1..], c, size, externals);
      MovedAppend(k, first, rest);
      AddTwice(k, size, size * |es[1..]|);
      assert size + size * |es[1..]| == size * |es|;
    }
  }

  lemma FixedMoves(k: Counters, r: Request, externals: seq<string>)
    requires k.Valid() && Allowed(r)
    ensures AllAllowed(CompiledAll([Fixed(r)], externals)) && Moved(k, CompiledAll([Fixed(r)], externals)) == k.Move(r)
  {
    TwoItems(Fixed(r), Fixed(r), externals);
    assert [r][1..] == [];
  }

  /** Every body but LOC and ORG moves the counter by the size of the line. */
  lemma BodyMoves(b: Body, op: byte, c: Context, dirpag: int, k: Counters, externals: seq<string>)
    requires k.Valid() && !b.Loc? && !b.Org? && forall e <- Operands(b) :: InRange(Eval(e, c).offset)
    ensures AllAllowed(CompiledAll(ItemsOf(b, op, c, dirpag), externals))
    ensures Moved(k, CompiledAll(ItemsOf(b, op, c, dirpag), externals)) == k.Add(Size(b, c, dirpag))
  {
    if b.Memory? || b.Indexed? || b.Immediate? {
      assert b.e in Operands(b);
      InstructionMoves(k, op, b.e, c, Size(b, c, dirpag) - 1, externals);
    } else if b.Branch? {
      TwoItems(Fixed(Byte(op)), Fixed(Byte(BranchByte(b.e, c))), externals);
      ByteMoves(k, op);
      ByteMoves(k.Add(1), BranchByte(b.e, c));
      MovedAppend(k, [Byte(op)], [Byte(BranchByte(b.e, c))]);
      AddTwice(k, 1, 1);
    } else if b.Bytes? {
      DataMoves(k, b.es, c, 1, externals);
    } else if b.Words? {
      DataMoves(k, b.es, c, 2, externals);
    } else if b.Inherent? {
      FixedMoves(k, Byte(op), externals);
    } else if b.Space? || b.Align? {
      FixedMoves(k, Skip(Size(b, c, dirpag)), externals);
    } else {
      assert k.Add(0) == k;
    }
  }

  /** The object file's counters are the assembler's, modulo the width of an offset. */
  ghost predicate Follows(k: Counters, st: State) {
    && k.Valid() && st.Valid() && k.cur == st.cur as nat && Wrap(k.Lc()) == st.here.lc
    && forall s | 0 <= s < 16 && s != k.cur :: Wrap(k.lcs[s]) == st.saved[s].lc
  }

  predicate SameLcs(a: State, b: State) {
    a.cur == b.cur && a.saved == b.saved && a.here.lc == b.here.lc
  }

  lemma DirectiveStays(l: Line, c: Context, st: State, setup: Setup)
    requires st.Valid() && !l.body.Loc? && !l.body.Org?
    ensures SameLcs(Directive(l, c, st, setup), st)
  {
  }

  lemma OpenedStays(l: Line, st: State, setup: Setup, es: seq<Expr>)
    ensures SameLcs(Mentioned(es, Opened(l, st, setup, true), setup), st)
  {
  }

  lemma CountersAfter(l: Line, st: State, setup: Setup)
    requires st.Valid() && !l.body.Loc? && !l.body.Org?
    ensures Step(l, st, setup, true).cur == st.cur && Step(l, st, setup, true).saved == st.saved
    ensures Step(l, st, setup, true).here.lc == Wrap(st.here.lc + Size(l.body, Last(l, st, setup), setup.dirpag))
  {
    StepCounters(l, st, setup, true);
    var read := Mentioned(Operands(l.body), Opened(l, st, setup, true), setup);
    OpenedStays(l, st, setup, Operands(l.body));
    DirectiveStays(l, Last(l, st, setup), read, setup);
  }

  lemma SegmentAfter(l: Line, st: State, setup: Setup)
    requires GoodCounters(st) && l.body.Loc?
    ensures Step(l, st, setup, true).cur == l.body.seg && Step(l, st, setup, true).saved == st.saved[st.cur as nat := st.here]
    ensures Step(l, st, setup, true).here.lc == st.saved[st.cur as nat := st.here][l.body.seg as nat].lc
  {
    StepCounters(l, st, setup, true);
    assert GoodCounter(st.saved[l.body.seg as nat], l.body.seg as nat == 0);
  }

  lemma OrgAfter(l: Line, st: State, setup: Setup)
    requires GoodCounters(st) && l.body.Org? && InRange(Absolute(l.body.e, Last(l, st, setup)).offset)
    ensures Step(l, st, setup, true).cur == st.cur && Step(l, st, setup, true).saved == st.saved
    ensures Step(l, st, setup, true).here.lc
         == (if Absolute(l.body.e, Last(l, st, setup)).tag.und then st.here.lc else Absolute(l.body.e, Last(l, st, setup)).offset)
  {
    StepCounters(l, st, setup, true);
  }

  lemma OperandsInRange(l: Line, st: State, setup: Setup)
    requires GoodState(st, setup) && GoodLine(l)
    ensures forall e <- Operands(l.body) :: InRange(Eval(e, Last(l, st, setup)).offset)
  {
    OpenedContextIsGood(l, st, setup, true);
    forall e <- Operands(l.body)
      ensures InRange(Eval(e, Last(l, st, setup)).offset)
    {
      ValueIsGood(e, Last(l, st, setup));
    }
  }

  /** What a line asks for, in the context of its operands. */
  ghost function LineRequests(l: Line, op: byte, st: State, setup: Setup, externals: seq<string>): seq<Request> {
    CompiledAll(ItemsOf(l.body, op, Last(l, st, setup), setup.dirpag), externals)
  }

  lemma LocFollows(l: Line, op: byte, st: State, setup: Setup, k: Counters, externals: seq<string>)
    requires GoodState(st, setup) && l.body.Loc? && Follows(k, st)
    ensures AllAllowed(LineRequests(l, op, st, setup, externals))
    ensures Follows(Moved(k, LineRequests(l, op, st, setup, externals)), Step(l, st, setup, true))
  {
    SegmentAfter(l, st, setup);
    assert Last(l, st, setup).lcTag.seg == st.cur;
    if l.body.seg != st.cur {
      FixedMoves(k, SetSeg(l.body.seg as nat), externals);
    }
    SwitchFollows(k, st, Step(l, st, setup, true), l.body.seg);
  }

  lemma SwitchFollows(k: Counters, st: State, st': State, seg: bv4)
    requires Follows(k, st) && st'.Valid() && st'.cur == seg && st'.saved == st.saved[st.cur as nat := st.here]
    requires st'.here.lc == st.saved[st.cur as nat := st.here][seg as nat].lc
    ensures Follows(Counters(seg as nat, k.lcs), st')
  {
  }

  lemma OrgFollows(l: Line, op: byte, st: State, setup: Setup, k: Counters, externals: seq<string>)
    requires GoodState(st, setup) && GoodLine(l) && l.body.Org? && Follows(k, st)
    ensures AllAllowed(LineRequests(l, op, st, setup, externals))
    ensures Follows(Moved(k, LineRequests(l, op, st, setup, externals)), Step(l, st, setup, true))
  {
    var v := Absolute(l.body.e, Last(l, st, setup));
    NeededIsGood(l, st, setup, true);
    OrgAfter(l, st, setup);
    if !v.tag.und {
      var n := v.offset - st.here.lc;
      FixedMoves(k, Skip(n), externals);
      WrapAdds(k.Lc(), n);
    }
  }

  lemma LineFollows(l: Line, op: byte, st: State, setup: Setup, k: Counters, externals: seq<string>)
    requires GoodState(st, setup) && GoodLine(l) && Follows(k, st)
    ensures AllAllowed(LineRequests(l, op, st, setup, externals))
    ensures Follows(Moved(k, LineRequests(l, op, st, setup, externals)), Step(l, st, setup, true))
  {
    if l.body.Loc? {
      LocFollows(l, op, st, setup, k, externals);
    } else if l.body.Org? {
      OrgFollows(l, op, st, setup, k, externals);
    } else {
      var c := Last(l, st, setup);
      OperandsInRange(l, st, setup);
      BodyMoves(l.body, op, c, setup.dirpag, k, externals);
      CountersAfter(l, st, setup);
      WrapAdds(k.Lc(), Size(l.body, c, setup.dirpag));
    }
  }

  lemma {:induction false} CompiledAppend(a: seq<Item>, b: seq<Item>, externals: seq<string>)
    ensures CompiledAll(a + b, externals) == CompiledAll(a, externals) + CompiledAll(b, externals)
    decreases |a|
  {
    if a == [] {
      assert a + b == b;
    } else {
      assert (a + b)[1..] == a[1..] + b;
      CompiledAppend(a[1..], b, externals);
      Assoc(Compiled(a[0], externals), CompiledAll(a[1..], externals), CompiledAll(b, externals));
    }
  }

  /** At every line the object file's counters are the assembler's. */
  lemma {:induction false} ProgramFollows(lines: seq<Line>, ops: seq<byte>, st: State, setup: Setup, k: Counters, externals: seq<string>)
    requires GoodState(st, setup) && GoodLines(lines) && HomeOrgs(lines, st.cur) && |ops| == |lines| && Follows(k, st)
    ensures AllAllowed(CompiledAll(ProgramItems(lines, ops, st, setup), externals))
    ensures Follows(Moved(k, CompiledAll(ProgramItems(lines, ops, st, setup), externals)), Run(lines, st, setup, true))
    decreases |lines|
  {
    if lines != [] {
      var l, rs := lines[0], LineRequests(lines[0], ops[0], st, setup, externals);
      assert l in lines;
      LineFollows(l, ops[0], st, setup, k, externals);
      StepIsGood(l, st, setup, true);
      StepCur(l, st, setup, true);
      var st' := Step(l, st, setup, true);
      ProgramFollows(lines[1..], ops[1..], st', setup, Moved(k, rs), externals);
      CompiledAppend(ItemsOf(l.body, ops[0], Last(l, st, setup), setup.dirpag), ProgramItems(lines[1..], ops[1..], st', setup), externals);
      MovedAppend(k, rs, CompiledAll(ProgramItems(lines[1..], ops[1..], st', setup), externals));
    }
  }

  // ---- sources

  /** A source text with its opcodes, and what the assembler starts from. */
  datatype SourceFile = SourceFile(lines: seq<Line>, ops: seq<byte>, symbols: map<string, Symbol>, setup: Setup)
  {
    /** Labels are defined once, ORG is used under LOC 0, and nothing is declared before. */
    ghost predicate WellFormed() {
      && |ops| == |lines| && GoodState(Start(symbols), setup) && Unlabelled(symbols, setup) && Undeclared(symbols, setup)
      && GoodLines(lines) && HomeOrgs(lines, 0) && AllFresh(lines, Start(symbols), setup)
    }

    function FirstPass(): State {
      Run(lines, Start(symbols), setup, false)
    }

    /** The last pass starts from the symbols of the first. */
    function LastStart(): State {
      Start(FirstPass().symbols)
    }

    /** The last pass before line i. */
    function Before(i: nat): (st: State)
      requires i <= |lines|
      ensures st.Valid()
    {
      Run(lines[..i], LastStart(), setup, true)
    }

    /** The table that the last pass ends with. */
    function Table(): State {
      Run(lines, LastStart(), setup, true)
    }

    function Items(): seq<Item>
      requires |ops| == |lines|
    {
      ProgramItems(lines, ops, LastStart(), setup)
    }

    /** The context of the operands of line i. */
    ghost function At(i: nat): Context
      requires i < |lines|
    {
      Last(lines[i], Before(i), setup)
    }

    /** No error is reported. */
    predicate Assembles() {
      AllErrorless(lines, LastStart(), setup)
    }

    /** Comparisons see addresses that do not wrap, and imports are numbered. */
    ghost predicate Fits(p: Placement, externals: seq<string>) {
      LinesFit(lines, LastStart(), setup, p, externals)
    }
  }

  ghost predicate OperandFits(e: Expr, c: Context, p: Placement, externals: seq<string>) {
    Unwrapped(e, c, p) && (Eval(e, c).tag.imp ==> Eval(e, c).sym.Some? && Eval(e, c).sym.value in externals)
  }

  ghost predicate LinesFit(lines: seq<Line>, st: State, setup: Setup, p: Placement, externals: seq<string>)
    requires st.Valid()
    decreases |lines|
  {
    lines == [] ||
    ((forall e <- Operands(lines[0].body) :: OperandFits(e, Last(lines[0], st, setup), p, externals))
     && LinesFit(lines[1..], Step(lines[0], st, setup, true), setup, p, externals))
  }

  // ---- lines are accepted

  lemma {:induction false} AcceptedAppend(a: seq<Item>, b: seq<Item>, p: Placement, externals: seq<string>)
    requires AllAccepted(a, p, externals) && AllAccepted(b, p, externals)
    ensures AllAccepted(a + b, p, externals)
    decreases |a|
  {
    if a == [] {
      assert a + b == b;
    } else {
      assert (a + b)[1..] == a[1..] + b;
      AcceptedAppend(a[1..], b, p, externals);
    }
  }

  /** Items that evaluate the operands of a line in one context. */
  predicate Uses(items: seq<Item>, es: seq<Expr>, c: Context) {
    forall i <- items :: i.Operand? ==> i.c == c && i.e in es && (i.size == 1 || i.size == 2)
  }

  lemma {:induction false} DataUses(es: seq<Expr>, all: seq<Expr>, c: Context, size: nat)
    requires (size == 1 || size == 2) && forall e <- es :: e in all
    ensures Uses(Data(es, c, size), all, c)
    decreases |es|
  {
    if es != [] {
      assert es[0] in es;
      DataUses(es[1..], all, c, size);
    }
  }

  lemma ItemsUse(b: Body, op: byte, c: Context, dirpag: int)
    ensures Uses(ItemsOf(b, op, c, dirpag), Operands(b), c)
  {
    if b.Bytes? {
      DataUses(b.es, b.es, c, 1);
    } else if b.Words? {
      DataUses(b.es, b.es, c, 2);
    }
  }

  lemma {:induction false} UsesAccepted(items: seq<Item>, es: seq<Expr>, c: Context, p: Placement, externals: seq<string>)
    requires Uses(items, es, c) && c.last && Sane(c) && WellTagged(c)
    requires forall e <- es :: NumbersInRange(e) && !Eval(e, c).bad && OperandFits(e, c, p, externals)
    ensures AllAccepted(items, p, externals)
    decreases |items|
  {
    if items != [] {
      assert items[0] in items;
      UsesAccepted(items[1..], es, c, p, externals);
    }
  }

  lemma {:induction false} ProgramItemsAccepted(lines: seq<Line>, ops: seq<byte>, st: State, setup: Setup, p: Placement, externals: seq<string>)
    requires GoodState(st, setup) && GoodLines(lines) && HomeOrgs(lines, st.cur) && LabelsKnown(lines, st, setup) && |ops| == |lines|
    requires AllErrorless(lines, st, setup) && LinesFit(lines, st, setup, p, externals)
    ensures AllAccepted(ProgramItems(lines, ops, st, setup), p, externals)
    decreases |lines|
  {
    if lines != [] {
      var l, c := lines[0], Last(lines[0], st, setup);
      assert l in lines;
      ContextIsSane(l, st, setup);
      ItemsUse(l.body, ops[0], c, setup.dirpag);
      UsesAccepted(ItemsOf(l.body, ops[0], c, setup.dirpag), Operands(l.body), c, p, externals);
      StepIsGood(l, st, setup, true);
      StepCur(l, st, setup, true);
      LabelsStayKnown(lines, l, st, setup);
      ProgramItemsAccepted(lines[1..], ops[1..], Step(l, st, setup, true), setup, p, externals);
      AcceptedAppend(ItemsOf(l.body, ops[0], c, setup.dirpag), ProgramItems(lines[1..], ops[1..], Step(l, st, setup, true), setup),
                     p, externals);
    }
  }

  // ---- final meanings

  /** The same item with the table that the last pass ends with. */
  ghost function FinalItem(i: Item, g: State): Item {
    if i.Operand? then i.(c := FinalContext(i.c, g)) else i
  }

  ghost function FinalAll(items: seq<Item>, g: State): (r: seq<Item>)
    ensures |r| == |items|
  {
    if items == [] then [] else [FinalItem(items[0], g)] + FinalAll(items[1..], g)
  }

  lemma {:induction false} FinalAppend(a: seq<Item>, b: seq<Item>, g: State)
    ensures FinalAll(a + b, g) == FinalAll(a, g) + FinalAll(b, g)
    decreases |a|
  {
    if a == [] {
      assert a + b == b;
    } else {
      assert (a + b)[1..] == a[1..] + b;
      FinalAppend(a[1..], b, g);
    }
  }

  lemma {:induction false} LiteralAppend(a: seq<Item>, b: seq<Item>, p: Placement)
    ensures LiteralAll(a + b, p) == LiteralAll(a, p) + LiteralAll(b, p)
    decreases |a|
  {
    if a == [] {
      assert a + b == b;
    } else {
      assert (a + b)[1..] == a[1..] + b;
      LiteralAppend(a[1..], b, p);
      Assoc(Literal(a[0], p), LiteralAll(a[1..], p), LiteralAll(b, p));
    }
  }

  lemma {:induction false} UsesFinal(items: seq<Item>, es: seq<Expr>, c: Context, g: State, p: Placement)
    requires Uses(items, es, c) && forall e <- es :: Meaning(e, c, p) == Meaning(e, FinalContext(c, g), p)
    ensures LiteralAll(FinalAll(items, g), p) == LiteralAll(items, p)
    decreases |items|
  {
    if items != [] {
      assert items[0] in items;
      UsesFinal(items[1..], es, c, g, p);
    }
  }

  lemma LineIsFinal(lines: seq<Line>, op: byte, a: State, b: State, f: State, setup: Setup, p: Placement)
    requires lines != [] && Together(lines, a, b, f, setup)
    ensures LiteralAll(FinalAll(ItemsOf(lines[0].body, op, Last(lines[0], b, setup), setup.dirpag), Run(lines, b, setup, true)), p)
         == LiteralAll(ItemsOf(lines[0].body, op, Last(lines[0], b, setup), setup.dirpag), p)
  {
    var l, c, g := lines[0], Last(lines[0], b, setup), Run(lines, b, setup, true);
    if !l.body.Equ? {
      forall e <- Operands(l.body)
        ensures Meaning(e, c, p) == Meaning(e, FinalContext(c, g), p)
      {
        OperandIsFinal(lines, a, b, f, setup, e, p);
      }
      ItemsUse(l.body, op, c, setup.dirpag);
      UsesFinal(ItemsOf(l.body, op, c, setup.dirpag), Operands(l.body), c, g, p);
    }
  }

  lemma {:induction false} ProgramIsFinal(lines: seq<Line>, ops: seq<byte>, a: State, b: State, f: State, setup: Setup, p: Placement)
    requires Together(lines, a, b, f, setup) && |ops| == |lines|
    ensures LiteralAll(FinalAll(ProgramItems(lines, ops, b, setup), Run(lines, b, setup, true)), p)
         == LiteralAll(ProgramItems(lines, ops, b, setup), p)
    decreases |lines|
  {
    if lines != [] {
      var l, g, b' := lines[0], Run(lines, b, setup, true), Step(lines[0], b, setup, true);
      var first, rest := ItemsOf(l.body, ops[0], Last(l, b, setup), setup.dirpag), ProgramItems(lines[1..], ops[1..], b', setup);
      LineIsFinal(lines, ops[0], a, b, f, setup, p);
      TogetherNext(lines, a, b, f, setup);
      ProgramIsFinal(lines[1..], ops[1..], Step(l, a, setup, false), b', f, setup, p);
      FinalAppend(first, rest, g);
      LiteralAppend(FinalAll(first, g), FinalAll(rest, g), p);
      LiteralAppend(first, rest, p);
    }
  }

  /** What the theorems about an assembled source start from. */
  lemma SourceStarts(src: SourceFile, p: Placement, externals: seq<string>)
    requires src.WellFormed() && src.Assembles() && src.Fits(p, externals)
    ensures Together(src.lines, Start(src.symbols), src.LastStart(), src.FirstPass(), src.setup)
    ensures AllAccepted(src.Items(), p, externals)
  {
    TogetherStarts(src.lines, src.symbols, src.setup);
    LastPassStarts(src.lines, src.symbols, src.setup);
    ProgramItemsAccepted(src.lines, src.ops, src.LastStart(), src.setup, p, externals);
  }

  /** An assembled source: linking its object code, for any placement, gives what linking the
      program with every operand replaced by its bytes would give, where every label stands for
      the address that it has when the last pass is over. */
  lemma AssembledProgramLinks(src: SourceFile, p: Placement, externals: seq<string>, m: ModuleLinker.Module, st: ModuleLinker.Linked)
    requires src.WellFormed() && src.Assembles() && src.Fits(p, externals) && Places(m, p, externals) && st.Valid()
    ensures ModuleLinker.LinkAll(Merged(0, CompiledAll(src.Items(), externals)), st, m)
         == ModuleLinker.LinkAll(Merged(0, LiteralAll(FinalAll(src.Items(), src.Table()), p)), st, m)
  {
    SourceStarts(src, p, externals);
    ProgramIsFinal(src.lines, src.ops, Start(src.symbols), src.LastStart(), src.FirstPass(), src.setup, p);
    ProgramLinks(src.Items(), 0, m, p, externals, st);
  }
}
