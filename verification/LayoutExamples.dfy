/** Small scripts that show the layout theorems at work, and at their limits. */
module LayoutExamples {
  import opened Prelude
  import opened ScriptSyntax
  import opened Layout
  import opened InformationFlow
  import opened Settling
  import opened Fixpoint

  const PLAIN := ScriptSymbol(true, false, false, false)

  function Script(top: seq<Top>, regions: seq<Region>, symbols: map<string, ScriptSymbol>): Program {
    Program(top, regions, None, symbols, map[], {}, [], {}, map[], true, false)
  }

  // ---- MEMORY { A : ORIGIN = ORIGIN(A) + 1, LENGTH = 16 }

  const DRIFTING := Region("A", Binary(Add, OfName(ORIGIN, "A"), Num(1)), Num(16))

  const DRIFT := Script([], [DRIFTING], map[])

  lemma DriftPass(st: State)
    ensures Pass(DRIFT, st).Some?
    ensures Pass(DRIFT, st).value.prev == st.prev
    ensures At(Pass(DRIFT, st).value.store, Org("A")) == At(st.store, Org("A")) + 1
    ensures Unchanged(DRIFT, Pass(DRIFT, st).value)
  {
    var r := Reset(st);
    assert DRIFT.HasRegion("A") by {
      assert DRIFT.regions[0].name == "A";
    }
    assert Eval(OfName(ORIGIN, "A"), DRIFT, r) == Some(At(st.store, Org("A")));
    assert Eval(DRIFTING.origin, DRIFT, r) == Some(At(st.store, Org("A")) + 1);
    assert DRIFT.regions[1..] == [];
    assert SetRegions(DRIFT.regions, DRIFT, r) == SetRegion(DRIFTING, DRIFT, r);
    assert !DRIFT.HasSection("A");
  }

  /** `remember` does not look at regions, so this script is accepted although its
      region moves in every pass. */
  lemma DriftIsAcceptedButMoves()
    ensures WellFormed(DRIFT) && LayoutOf(DRIFT).Some?
    ensures !Reproduces(DRIFT, LayoutOf(DRIFT).value.0)
  {
    DriftPass(INITIAL);
    var first := Remember(Pass(DRIFT, INITIAL).value);
    DriftPass(first);
    var st := Remember(Pass(DRIFT, first).value);
    DriftLoop(first, st);
    DriftPass(st);
    assert RegionCells(DRIFT.regions[1..]) == {};
    assert PassCells(DRIFT) == {Org("A"), Len("A"), Cursor("A")};
    assert SectionsOf(DRIFT.top) == [];
  }

  lemma DriftLoop(first: State, st: State)
    requires Pass(DRIFT, INITIAL).Some? && first == Remember(Pass(DRIFT, INITIAL).value)
    requires Pass(DRIFT, first).Some? && st == Remember(Pass(DRIFT, first).value)
    requires Unchanged(DRIFT, Pass(DRIFT, first).value)
    ensures LayoutOf(DRIFT) == Some((st, 2))
  {
    assert LayoutOf(DRIFT) == LayoutLoop(PassOf(DRIFT), Stable(DRIFT), first, 1);
  }

  // ---- a = b + 1; b = a;  and  a = b + 1; b = 5;

  const SYMBOLS := map["a" := PLAIN, "b" := PLAIN]

  const FIRST := TopAssign(Plain, "a", Binary(Add, Sym("b"), Num(1)))

  const CHASE := Script([FIRST, TopAssign(Plain, "b", Sym("a"))], [], SYMBOLS)

  const CHAIN := Script([FIRST, TopAssign(Plain, "b", Num(5))], [], SYMBOLS)

  lemma Names()
    ensures "a" != "b"
  {
    assert "a"[0] != "b"[0];
  }

  lemma FirstRuns(prog: Program, r: State)
    requires prog.symbols == SYMBOLS
    ensures ExecTop(FIRST, prog, r)
            == Some(Write(SymbolValue("a"), Value(SymbolValue("b"), r) + 1, r).(bound := r.bound + {"a"}))
  {
    Names();
    assert prog.ScriptOwns("b");
    assert Eval(Sym("b"), prog, r) == Some(Value(SymbolValue("b"), r));
    assert Eval(FIRST.e, prog, r) == Some(Value(SymbolValue("b"), r) + 1);
  }

  lemma ChasePass(st: State)
    requires Remembered(st)
    ensures Pass(CHASE, st).Some?
    ensures
      var after := Pass(CHASE, st).value;
      var b := At(st.store, SymbolValue("b"));
      At(after.store, SymbolValue("a")) == b + 1 && At(after.store, SymbolValue("b")) == b + 1 && after.prev == st.prev
  {
    var r := Reset(st);
    assert SetRegions(CHASE.regions, CHASE, r) == Some(r);
    Names();
    FirstRuns(CHASE, r);
    var one := ExecTop(FIRST, CHASE, r).value;
    assert CHASE.top[0] == FIRST && CHASE.top[1..] == [CHASE.top[1]];
    assert RunTop(CHASE.top, CHASE, r) == RunTop(CHASE.top[1..], CHASE, one);
    assert CHASE.ScriptOwns("a");
    assert Eval(Sym("a"), CHASE, one) == Some(At(st.store, SymbolValue("b")) + 1);
    var second := CHASE.top[1];
    var two := Write(SymbolValue("b"), At(st.store, SymbolValue("b")) + 1, one).(bound := one.bound + {"b"});
    assert ExecTop(second, CHASE, one) == Some(two);
    assert CHASE.top[1..][0] == second && CHASE.top[1..][1..] == [];
    assert RunTop(CHASE.top[1..], CHASE, one) == Some(two);
  }

  lemma {:induction false} ChaseLoops(st: State, done: nat)
    requires done < MAXPASSES && Remembered(st)
    ensures LayoutLoop(PassOf(CHASE), Stable(CHASE), st, done).None?
    decreases MAXPASSES - done
  {
    ChasePass(st);
    var after := PassOf(CHASE)(st).value;
    assert Observed(SymbolValue("b"), CHASE);
    assert !Unchanged(CHASE, after);
    if done + 1 < MAXPASSES {
      ChaseLoops(Remember(after), done + 1);
    }
  }

  /** Symbols that depend on each other never settle: the link is an error. */
  lemma ChaseIsRejected()
    ensures LayoutOf(CHASE).None?
  {
    ChaseLoops(INITIAL, 0);
  }

  function ChainLevel(c: Cell): nat {
    if c == SymbolValue("a") then 1 else 0
  }

  lemma ChainLeveled()
    ensures Leveled(CHAIN, ChainLevel, 1)
  {
    Names();
    assert CHAIN.ScriptOwns("b");
    assert CHAIN.top[0] == FIRST && CHAIN.top[1..] == [CHAIN.top[1]] && CHAIN.top[1..][1..] == [];
    forall n: nat | n <= 1
      ensures CheckPass(ViewAt(CHAIN, ChainLevel, n)).Some?
    {
      var v := ViewAt(CHAIN, ChainLevel, n);
      assert CheckRegions(CHAIN.regions, AT_RESET, v) == Some(AT_RESET);
      assert ChainLevel(SymbolValue("b")) == 0 && ChainLevel(SymbolValue("a")) == 1;
      assert n == 1 ==> v.was(SymbolValue("b"));
      assert n == 1 ==> Shared(SymbolValue("b"), AT_RESET, v);
      assert n == 0 ==> !v.low(SymbolValue("a"));
      assert n == 1 ==> LowExpr(Sym("b"), AT_RESET, v);
      assert n == 1 ==> LowExpr(FIRST.e, AT_RESET, v);
      var one := CheckExecTop(FIRST, AT_RESET, v).value;
      assert CheckExecTop(CHAIN.top[1], one, v).Some?;
      assert CHAIN.top[1..][0] == CHAIN.top[1];
      assert CheckTop(CHAIN.top[1..], one, v).Some?;
    }
  }

  lemma ChainPasses(st: State)
    ensures Pass(CHAIN, st).Some?
  {
    var r := Reset(st);
    assert CHAIN.top[0] == FIRST && CHAIN.top[1..] == [CHAIN.top[1]] && CHAIN.top[1..][1..] == [];
    FirstRuns(CHAIN, r);
    var one := ExecTop(FIRST, CHAIN, r).value;
    assert ExecTop(CHAIN.top[1], CHAIN, one).Some?;
    assert RunTop(CHAIN.top[1..], CHAIN, one).Some?;
  }

  /** One forward reference: accepted by pass 3. */
  lemma ChainSettles()
    ensures LayoutOf(CHAIN).Some? && LayoutOf(CHAIN).value.1 <= 3
  {
    ChainLeveled();
    ChainPasses(INITIAL);
    var one := Passes(PassOf(CHAIN), INITIAL, 1).value;
    ChainPasses(one);
    ChainPasses(Passes(PassOf(CHAIN), INITIAL, 2).value);
    SettlesByDepth(CHAIN, ChainLevel, 1);
  }
}
