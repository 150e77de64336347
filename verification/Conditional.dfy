/** Conditional assembly (as/pops.c:143-163, 359-384, 535-548, 583-595; as/assemble.c:135-141):
    two flags and a stack, against the nested text that they read. */
module Conditional {
  import opened Prelude

  const MAXIF := 8

  /** A condition may be undefined. */
  datatype Truth = True | False | Undefined

  /** The value of a condition after some lines were assembled. */
  type Oracle = (seq<nat>, nat) -> Truth

  datatype Line = Plain(id: nat) | If(cond: nat) | ElseIf(cond: nat) | Else | EndIf

  // ---- the machine

  datatype Saved = Saved(ifflag: bool, elseflag: bool)

  /** The flags, the stack, and the lines that were assembled. */
  datatype Machine = Machine(ifflag: bool, elseflag: bool, stack: seq<Saved>, done: seq<nat>)

  function DoIf(cond: nat, m: Machine, o: Oracle): Machine {
    if |m.stack| >= MAXIF then m
    else
      var pushed := m.(stack := m.stack + [Saved(m.ifflag, m.elseflag)], elseflag := false);
      if m.ifflag && o(m.done, cond) == False then pushed.(ifflag := false, elseflag := true) else pushed
  }

  function DoElseIf(cond: nat, m: Machine, o: Oracle): Machine {
    if m.stack == [] then m
    else if m.elseflag && o(m.done, cond) == True then m.(ifflag := true, elseflag := false)
    else m.(ifflag := false)
  }

  function DoElse(m: Machine): Machine {
    if m.stack == [] then m else m.(ifflag := m.elseflag, elseflag := false)
  }

  function DoEndIf(m: Machine): Machine {
    if m.stack == [] then m
    else
      var top := m.stack[|m.stack| - 1];
      m.(ifflag := top.ifflag, elseflag := top.elseflag, stack := m.stack[..|m.stack| - 1])
  }

  function Step(l: Line, m: Machine, o: Oracle): Machine {
    match l
    case Plain(id) => if m.ifflag then m.(done := m.done + [id]) else m
    case If(cond) => DoIf(cond, m, o)
    case ElseIf(cond) => DoElseIf(cond, m, o)
    case Else => DoElse(m)
    case EndIf => DoEndIf(m)
  }

  function Run(lines: seq<Line>, m: Machine, o: Oracle): Machine
    decreases |lines|
  {
    if lines == [] then m else Run(lines[1..], Step(lines[0], m, o), o)
  }

  lemma {:induction false} RunAppend(a: seq<Line>, b: seq<Line>, m: Machine, o: Oracle)
    ensures Run(a + b, m, o) == Run(b, Run(a, m, o), o)
    decreases |a|
  {
    if a == [] {
      assert a + b == b;
    } else {
      assert (a + b)[1..] == a[1..] + b;
      RunAppend(a[1..], b, Step(a[0], m, o), o);
    }
  }

  // ---- nested text

  datatype Block =
    | End
    | Text(id: nat, next: Block)
    | Choice(cond: nat, body: Block, alts: Alternatives, next: Block)

  datatype Alternatives =
    | NoMore
    | OrIf(cond: nat, body: Block, rest: Alternatives)
    | OrElse(body: Block, rest: Alternatives)

  function Flat(b: Block): seq<Line> {
    match b
    case End => []
    case Text(id, next) => [Plain(id)] + Flat(next)
    case Choice(cond, body, alts, next) => [If(cond)] + Flat(body) + FlatAlts(alts) + [EndIf] + Flat(next)
  }

  function FlatAlts(a: Alternatives): seq<Line> {
    match a
    case NoMore => []
    case OrIf(cond, body, rest) => [ElseIf(cond)] + Flat(body) + FlatAlts(rest)
    case OrElse(body, rest) => [Else] + Flat(body) + FlatAlts(rest)
  }

  function Max(a: nat, b: nat): nat {
    if a < b then b else a
  }

  function Depth(b: Block): nat {
    match b
    case End => 0
    case Text(_, next) => Depth(next)
    case Choice(_, body, alts, next) => Max(1 + Max(Depth(body), DepthAlts(alts)), Depth(next))
  }

  function DepthAlts(a: Alternatives): nat {
    match a
    case NoMore => 0
    case OrIf(_, body, rest) => Max(Depth(body), DepthAlts(rest))
    case OrElse(body, rest) => Max(Depth(body), DepthAlts(rest))
  }

  /** The recursive reading: the first branch whose condition holds, and no other. IF takes
      an undefined condition as true, ELSEIF as false. */
  function Select(b: Block, done: seq<nat>, o: Oracle): seq<nat> {
    match b
    case End => done
    case Text(id, next) => Select(next, done + [id], o)
    case Choice(cond, body, alts, next) =>
      Select(next, if o(done, cond) == False then SelectAlts(alts, done, o) else Select(body, done, o), o)
  }

  function SelectAlts(a: Alternatives, done: seq<nat>, o: Oracle): seq<nat> {
    match a
    case NoMore => done
    case OrIf(cond, body, rest) => if o(done, cond) == True then Select(body, done, o) else SelectAlts(rest, done, o)
    case OrElse(body, _) => Select(body, done, o)
  }

  // ---- the machine reads nested text

  /** What a block makes of a machine. */
  function After(b: Block, m: Machine, o: Oracle): Machine {
    if m.ifflag then m.(done := Select(b, m.done, o)) else m
  }

  /** Between IF and ENDIF: still looking for a branch, or not any more. */
  function AfterAlts(a: Alternatives, m: Machine, o: Oracle): seq<nat> {
    if m.elseflag then SelectAlts(a, m.done, o) else m.done
  }

  /** A block assembles the lines that its recursive reading selects, and leaves the flags
      and the stack as they were. */
  lemma {:induction false} BlockRuns(b: Block, m: Machine, o: Oracle)
    requires |m.stack| + Depth(b) <= MAXIF
    ensures Run(Flat(b), m, o) == After(b, m, o)
    decreases b
  {
    match b
    case End =>
    case Text(id, next) =>
      assert Flat(b)[1..] == Flat(next);
      BlockRuns(next, Step(Plain(id), m, o), o);
    case Choice(cond, body, alts, next) =>
      ChoiceSplits(cond, body, alts, next, m, o);
      var inside := DoIf(cond, m, o);
      BlockRuns(body, inside, o);
      AlternativesRun(alts, After(body, inside, o), o);
      var outside := DoEndIf(Run(FlatAlts(alts), After(body, inside, o), o));
      BlockRuns(next, outside, o);
  }

  lemma ChoiceSplits(cond: nat, body: Block, alts: Alternatives, next: Block, m: Machine, o: Oracle)
    ensures Run(Flat(Choice(cond, body, alts, next)), m, o)
         == Run(Flat(next), DoEndIf(Run(FlatAlts(alts), Run(Flat(body), DoIf(cond, m, o), o), o)), o)
  {
    var b := Flat(body) + FlatAlts(alts) + [EndIf] + Flat(next);
    assert Flat(Choice(cond, body, alts, next)) == [If(cond)] + b;
    assert ([If(cond)] + b)[1..] == b;
    var inside := DoIf(cond, m, o);
    RunAppend(Flat(body) + FlatAlts(alts) + [EndIf], Flat(next), inside, o);
    RunAppend(Flat(body) + FlatAlts(alts), [EndIf], inside, o);
    RunAppend(Flat(body), FlatAlts(alts), inside, o);
    RunOne(EndIf, Run(FlatAlts(alts), Run(Flat(body), inside, o), o), o);
  }

  lemma RunOne(l: Line, m: Machine, o: Oracle)
    ensures Run([l], m, o) == Step(l, m, o)
  {
  }

  lemma {:induction false} AlternativesRun(a: Alternatives, m: Machine, o: Oracle)
    requires |m.stack| + DepthAlts(a) <= MAXIF && m.stack != [] && !(m.ifflag && m.elseflag)
    ensures Run(FlatAlts(a), m, o).stack == m.stack && Run(FlatAlts(a), m, o).done == AfterAlts(a, m, o)
    decreases a
  {
    if !a.NoMore? {
      var head := if a.OrIf? then ElseIf(a.cond) else Else;
      BranchSplits(a, head, m, o);
      var inside := Step(head, m, o);
      BlockRuns(a.body, inside, o);
      AlternativesRun(a.rest, After(a.body, inside, o), o);
    }
  }

  lemma BranchSplits(a: Alternatives, head: Line, m: Machine, o: Oracle)
    requires !a.NoMore? && head == if a.OrIf? then ElseIf(a.cond) else Else
    ensures Run(FlatAlts(a), m, o) == Run(FlatAlts(a.rest), Run(Flat(a.body), Step(head, m, o), o), o)
  {
    var b := Flat(a.body) + FlatAlts(a.rest);
    assert FlatAlts(a) == [head] + b;
    assert ([head] + b)[1..] == b;
    RunAppend(Flat(a.body), FlatAlts(a.rest), Step(head, m, o), o);
  }

  /** A whole program of depth at most 8: exactly the selected lines, and the initial state. */
  lemma ProgramRuns(b: Block, o: Oracle)
    requires Depth(b) <= 8
    ensures Run(Flat(b), Machine(true, false, [], []), o) == Machine(true, false, [], Select(b, [], o))
  {
    BlockRuns(b, Machine(true, false, [], []), o);
  }

  // ---- one level too many

  /** An IF with a false condition inside n others. */
  function Deep(n: nat): Block {
    if n == 0 then Choice(1, Text(7, End), NoMore, End) else Choice(0, Deep(n - 1), NoMore, End)
  }

  const ONLY_ZERO: Oracle := (_, cond) => if cond == 0 then True else False

  lemma {:induction false} DeepSelectsNothing(n: nat, done: seq<nat>)
    ensures Select(Deep(n), done, ONLY_ZERO) == done
  {
    if n > 0 {
      DeepSelectsNothing(n - 1, done);
    }
  }

  lemma {:induction false} DeepAssembles(n: nat, m: Machine)
    requires m.ifflag && |m.stack| + n == MAXIF
    ensures Run(Flat(Deep(n)), m, ONLY_ZERO).done == m.done + [7]
    decreases n
  {
    if n == 0 {
      ChoiceSplits(1, Text(7, End), NoMore, End, m, ONLY_ZERO);
      assert Flat(Text(7, End)) == [Plain(7)];
      RunOne(Plain(7), m, ONLY_ZERO);
    } else {
      ChoiceSplits(0, Deep(n - 1), NoMore, End, m, ONLY_ZERO);
      DeepAssembles(n - 1, DoIf(0, m, ONLY_ZERO));
    }
  }

  /** At depth 9 the innermost condition is ignored. */
  lemma NinthLevelIsIgnored()
    ensures Select(Deep(8), [], ONLY_ZERO) == []
    ensures Run(Flat(Deep(8)), Machine(true, false, [], []), ONLY_ZERO).done == [7]
  {
    DeepSelectsNothing(8, []);
    DeepAssembles(8, Machine(true, false, [], []));
  }

  // ---- as it runs

  class Conditionals {
    const value: Oracle
    var ifflag: bool
    var elseflag: bool
    var ifstak: seq<Saved>
    var done: seq<nat>

    function Now(): Machine
      reads this
    {
      Machine(ifflag, elseflag, ifstak, done)
    }

    constructor (value: Oracle)
      ensures this.value == value && Now() == Machine(true, false, [], [])
    {
      this.value := value;
      ifflag, elseflag, ifstak, done := true, false, [], [];
    }

    method PIf(cond: nat)
      modifies this
      ensures Now() == DoIf(cond, old(Now()), value)
    {
      if |ifstak| < MAXIF {
        ifstak := ifstak + [Saved(ifflag, elseflag)];
        elseflag := false;
        if ifflag {
          var lastexp := value(done, cond);
          if lastexp == False {
            ifflag, elseflag := false, true;
          }
        }
      }
    }

    method PElseIf(cond: nat)
      modifies this
      ensures Now() == DoElseIf(cond, old(Now()), value)
    {
      if ifstak != [] {
        ifflag := false;
        if elseflag {
          var lastexp := value(done, cond);
          if lastexp == True {
            ifflag, elseflag := true, false;
          }
        }
      }
    }

    method PElse()
      modifies this
      ensures Now() == DoElse(old(Now()))
    {
      if ifstak != [] {
        ifflag := false;
        if elseflag {
          ifflag, elseflag := true, false;
        }
      }
    }

    method PEndIf()
      modifies this
      ensures Now() == DoEndIf(old(Now()))
    {
      if ifstak != [] {
        var top := ifstak[|ifstak| - 1];
        ifflag, elseflag := top.ifflag, top.elseflag;
        ifstak := ifstak[..|ifstak| - 1];
      }
    }

    /** The text of a nested program: what its recursive reading selects is assembled. */
    method Assemble(lines: seq<Line>)
      modifies this
      ensures Now() == Run(lines, old(Now()), value)
      ensures forall b: Block | Flat(b) == lines && |old(ifstak)| + Depth(b) <= MAXIF :: Now() == After(b, old(Now()), value)
    {
      var i := 0;
      while i < |lines|
        invariant 0 <= i <= |lines| && Run(lines, old(Now()), value) == Run(lines[i..], Now(), value)
      {
        assert lines[i..][1..] == lines[i + 1..];
        match lines[i] {
          case Plain(id) =>
            if ifflag {
              done := done + [id];
            }
          case If(cond) => PIf(cond);
          case ElseIf(cond) => PElseIf(cond);
          case Else => PElse();
          case EndIf => PEndIf();
        }
        i := i + 1;
      }
      forall b: Block | Flat(b) == lines && |old(ifstak)| + Depth(b) <= MAXIF
        ensures Now() == After(b, old(Now()), value)
      {
        BlockRuns(b, old(Now()), value);
      }
    }
  }
}
