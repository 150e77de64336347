/** A pass as it runs (as/assemble.c:84-113, 145-176; as/mops.c:76-133; as/pops.c:84-103,
    165-205, 431-441, 780-806, 871-883, 980-998), over the assembler's globals. */
module AssemblyEngine {
  import opened Prelude
  import opened AsmExpression
  import opened OperandReader
  import opened Assembly

  class Assembler {
    const setup: Setup
    const last: bool
    var symbols: map<string, Symbol>
    var lc: int
    var lcdata: Tag
    var cur: bv4
    var lctab: seq<Counter>
    var unstable: bool

    function Globals(): State
      reads this
    {
      State(symbols, Counter(lc, lcdata), cur, lctab, unstable)
    }

    ghost predicate Valid()
      reads this
    {
      |lctab| == 16
    }

    constructor (symbols: map<string, Symbol>, setup: Setup, last: bool)
      ensures Valid() && Globals() == Start(symbols) && this.setup == setup && this.last == last
    {
      this.symbols, this.setup, this.last := symbols, setup, last;
      lc, lcdata, cur, unstable := 0, Tag(true, 0, false, false, false), 0, false;
      lctab := Start(map[]).saved;
    }

    method PlaceLabel(x: string) returns (oldlabel: int)
      modifies this`symbols
      ensures Globals() == Place(x, old(Globals()), setup, last)
      ensures oldlabel == Look(x, old(Globals()), setup).value
    {
      var s := Look(x, Globals(), setup);
      oldlabel := s.value;
      if !s.known || last {
        symbols := symbols[x := s.(tag := lcdata.(fwd := s.tag.fwd || lcdata.fwd), value := lc)];
      }
    }

    method ConfirmLabel(x: string, oldlabel: int)
      modifies this`symbols, this`unstable
      ensures Globals() == Confirm(x, oldlabel, old(Globals()), setup, last)
    {
      var s := Look(x, Globals(), setup);
      if last && s.value != oldlabel {
        unstable := true;
      }
      symbols := symbols[x := s.(known := true)];
    }

    /** The marks that reading the operands leaves in the symbol table. */
    method ReadOperands(es: seq<Expr>)
      modifies this`symbols
      ensures Globals() == Mentioned(es, old(Globals()), setup)
    {
      ghost var start := ContextOf(Globals(), setup, false);
      var i := 0;
      while i < |es|
        invariant 0 <= i <= |es|
        invariant Globals() == old(Globals()).(symbols := symbols)
        invariant Marked(es, start) == Marked(es[i..], ContextOf(Globals(), setup, false))
      {
        assert es[i..][1..] == es[i + 1..];
        MarksAreAlike(es[i], ContextOf(Globals(), setup, false));
        symbols := MarkAll(es[i], ContextOf(Globals(), setup, false)).symbols;
        i := i + 1;
      }
    }

    /** `doaltind`: an operand without an index register. */
    method AltInd(b: Body, c: Context) returns (mcount: int)
      requires b.Memory?
      ensures mcount == Size(b, c, setup.dirpag)
    {
      mcount := 2;
      var byteflag, wordflag := b.short, b.long;
      var lastexp := Eval(b.e, c);
      if b.memory {
        byteflag, wordflag := false, true;
      }
      if !(byteflag || (!wordflag && !(lastexp.tag.fwd || lastexp.tag.rel) && lastexp.offset / 256 == setup.dirpag)) {
        mcount := mcount + 1;
      }
    }

    /** `constdata` and `palign`. */
    method Reserve(b: Body, c: Context) returns (lcjump: int)
      requires (b.Space? || b.Align?) && c.lcTag == lcdata
      modifies this`lcdata
      ensures lcjump == Size(b, c, setup.dirpag) && Globals() == Bind(Absolute(b.e, c), old(Globals()))
    {
      var lastexp := Absolute(b.e, c);
      lcdata := Join(lcdata, lastexp.tag);
      lcjump := 0;
      if !lcdata.und {
        if b.Space? {
          lcjump := lastexp.offset;
        } else if lastexp.offset > 0 && c.lc % lastexp.offset != 0 {
          lcjump := lastexp.offset - c.lc % lastexp.offset;
        }
      }
    }

    method SetLoc(seg: bv4)
      requires Valid()
      modifies this
      ensures Valid() && Globals() == SwitchTo(seg, old(Globals()))
    {
      lctab := lctab[cur as nat := Counter(lc, lcdata)];
      cur := seg;
      lcdata := lctab[seg as nat].tag.(seg := seg);
      lc := lctab[seg as nat].lc;
    }

    method SetOrg(v: Value)
      modifies this`lc, this`lcdata
      ensures Globals() == OrgTo(v, old(Globals()))
    {
      lcdata := v.tag;
      if !lcdata.und {
        lc := v.offset;
      }
    }

    method EquSet(x: string, v: Value)
      modifies this`symbols
      ensures Globals() == Equate(x, v, old(Globals()), setup)
    {
      var s := Look(x, Globals(), setup);
      var tag := v.tag;
      if tag.imp {
        tag := UNDEFINED;
      }
      symbols := symbols[x := s.(tag := tag.(fwd := tag.fwd || s.tag.fwd), value := v.offset)];
    }

    method ImportName(x: string)
      modifies this`symbols
      ensures Globals() == Imported(x, old(Globals()), setup)
    {
      var s := Look(x, Globals(), setup);
      if !s.known && !s.reserved && !(s.tag.imp && !s.tag.und && Differ(s.tag, lcdata)) {
        symbols := symbols[x := s.(tag := lcdata.(fwd := true, imp := true, rel := true))];
      }
    }

    /** The body of a line, whose operands are evaluated in c; returns lcjump. */
    method Routine(l: Line, c: Context) returns (lcjump: int)
      requires Valid() && c.lcTag == lcdata
      modifies this
      ensures Valid() && Globals() == Directive(l, c, old(Globals()), setup)
      ensures lcjump == Size(l.body, c, setup.dirpag)
    {
      lcjump := 0;
      match l.body {
        case Nothing =>
        case Inherent => lcjump := 1;
        case Memory(_, _, _, _) => lcjump := AltInd(l.body, c);
        case Indexed(_) => lcjump := 2;
        case Immediate(wide, _) => lcjump := if wide then 3 else 2;
        case Branch(_) => lcjump := 2;
        case Bytes(es) => lcjump := |es|;
        case Words(es) => lcjump := 2 * |es|;
        case Space(_) => lcjump := Reserve(l.body, c);
        case Align(_) => lcjump := Reserve(l.body, c);
        case Org(e) => SetOrg(Absolute(e, c));
        case Loc(seg) => SetLoc(seg);
        case Equ(e) =>
          if l.lab.Some? {
            EquSet(l.lab.value, Eval(e, c));
          }
        case Import(x) => ImportName(x);
      }
    }

    /** One line: label, operands, routine, confirmation of the label, new counter. */
    method AssembleLine(l: Line)
      requires Valid()
      modifies this
      ensures Valid() && Globals() == Step(l, old(Globals()), setup, last)
    {
      var oldlabel := 0;
      if l.lab.Some? {
        oldlabel := PlaceLabel(l.lab.value);
        if l.body.Equ? {
          symbols := Known(l.lab.value, Globals(), setup).symbols;
        }
      }
      var c := ContextOf(Globals(), setup, last);
      ReadOperands(Operands(l.body));
      var lcjump := Routine(l, c);
      lc := Wrap(lc + lcjump);
      if l.lab.Some? {
        ConfirmLabel(l.lab.value, oldlabel);
      }
    }

    method Assemble(lines: seq<Line>)
      requires Valid()
      modifies this
      ensures Valid() && Globals() == Run(lines, old(Globals()), setup, last)
    {
      var i := 0;
      while i < |lines|
        invariant 0 <= i <= |lines| && Valid()
        invariant Run(lines, old(Globals()), setup, last) == Run(lines[i..], Globals(), setup, last)
      {
        assert lines[i..][1..] == lines[i + 1..];
        AssembleLine(lines[i]);
        i := i + 1;
      }
    }
  }
}
