/** Choosing the modules to load (ld/linksyms.c:38-86): a depth-first search from the
    entry symbols inside a loop that binds symbols to loaded redefinitions of a
    higher class. */
module ModuleSelection {
  import opened Prelude

  /** Another definition of a symbol, in a module of another class. */
  datatype Redefinition = Redefinition(sym: nat, mod: nat, value: int)

  /** What was read: each module's class and the symbols it refers to, the symbols and
      modules that linking starts from, and the redefinitions. */
  datatype Library = Library(classes: seq<nat>, refs: seq<seq<nat>>, symbols: nat, entries: seq<nat>, kept: seq<nat>,
                             reds: seq<Redefinition>)
  {
    predicate Valid() {
      && |refs| == |classes| && (forall m | 0 <= m < |classes| :: classes[m] < 256)
      && (forall m | 0 <= m < |refs| :: AllBelow(refs[m], symbols))
      && AllBelow(entries, symbols) && AllBelow(kept, |classes|)
      && (forall i | 0 <= i < |reds| :: reds[i].sym < symbols && reds[i].mod < |classes|)
    }
  }

  predicate AllBelow(xs: seq<nat>, n: nat) {
    forall i | 0 <= i < |xs| :: xs[i] < n
  }

  /** Where each symbol is bound. */
  predicate Binds(binding: seq<nat>, lib: Library) {
    |binding| == lib.symbols && AllBelow(binding, |lib.classes|)
  }

  // ---- reachability

  /** Module m refers to a symbol that is bound to module n. */
  ghost predicate Edge(m: nat, n: nat, binding: seq<nat>, lib: Library)
    requires lib.Valid() && Binds(binding, lib)
  {
    m < |lib.refs| && exists i | 0 <= i < |lib.refs[m]| :: binding[lib.refs[m][i]] == n
  }

  ghost predicate Root(m: nat, binding: seq<nat>, lib: Library)
    requires lib.Valid() && Binds(binding, lib)
  {
    m in lib.kept || exists i | 0 <= i < |lib.entries| :: binding[lib.entries[i]] == m
  }

  ghost predicate Path(p: seq<nat>, binding: seq<nat>, lib: Library)
    requires lib.Valid() && Binds(binding, lib)
  {
    p != [] && forall i | 0 < i < |p| :: Edge(p[i - 1], p[i], binding, lib)
  }

  ghost predicate Reachable(m: nat, binding: seq<nat>, lib: Library)
    requires lib.Valid() && Binds(binding, lib)
  {
    exists p :: Path(p, binding, lib) && Root(p[0], binding, lib) && p[|p| - 1] == m
  }

  lemma RootIsReachable(m: nat, binding: seq<nat>, lib: Library)
    requires lib.Valid() && Binds(binding, lib) && Root(m, binding, lib)
    ensures Reachable(m, binding, lib)
  {
    assert Path([m], binding, lib);
  }

  lemma EdgeIsReachable(m: nat, n: nat, binding: seq<nat>, lib: Library)
    requires lib.Valid() && Binds(binding, lib) && Reachable(m, binding, lib) && Edge(m, n, binding, lib)
    ensures Reachable(n, binding, lib)
  {
    var p :| Path(p, binding, lib) && Root(p[0], binding, lib) && p[|p| - 1] == m;
    assert Path(p + [n], binding, lib);
  }

  /** A set that holds the roots and is closed under references holds what is reachable. */
  lemma {:induction false} ClosedHoldsPath(p: seq<nat>, i: nat, loaded: seq<bool>, binding: seq<nat>, lib: Library)
    requires lib.Valid() && Binds(binding, lib) && |loaded| == |lib.classes|
    requires Path(p, binding, lib) && i < |p| && p[0] < |loaded| && loaded[p[0]]
    requires forall m | 0 <= m < |loaded| && loaded[m] :: Complete(m, loaded, binding, lib)
    ensures p[i] < |loaded| && loaded[p[i]]
  {
    if i > 0 {
      ClosedHoldsPath(p, i - 1, loaded, binding, lib);
      assert Complete(p[i - 1], loaded, binding, lib);
      assert Edge(p[i - 1], p[i], binding, lib);
    }
  }

  /** Everything that m refers to is loaded. */
  ghost predicate Complete(m: nat, loaded: seq<bool>, binding: seq<nat>, lib: Library)
    requires lib.Valid() && Binds(binding, lib) && |loaded| == |lib.classes| && m < |loaded|
  {
    forall i | 0 <= i < |lib.refs[m]| :: loaded[binding[lib.refs[m][i]]]
  }

  function Unloaded(loaded: seq<bool>): nat {
    if loaded == [] then 0 else (if loaded[0] then 0 else 1) + Unloaded(loaded[1..])
  }

  predicate Grows(a: seq<bool>, b: seq<bool>) {
    |a| == |b| && forall i | 0 <= i < |a| && a[i] :: b[i]
  }

  lemma {:induction false} UnloadedFalls(a: seq<bool>, b: seq<bool>)
    requires Grows(a, b)
    ensures Unloaded(b) <= Unloaded(a)
    ensures (exists i | 0 <= i < |a| :: b[i] && !a[i]) ==> Unloaded(b) < Unloaded(a)
    decreases |a|
  {
    if a != [] {
      assert forall i | 0 <= i < |a[1..]| :: a[1..][i] == a[i + 1] && b[1..][i] == b[i + 1];
      UnloadedFalls(a[1..], b[1..]);
    }
  }

  // ---- classes of bindings

  function ClassSum(binding: seq<nat>, lib: Library): nat
    requires AllBelow(binding, |lib.classes|)
  {
    if binding == [] then 0 else lib.classes[binding[0]] + ClassSum(binding[1..], lib)
  }

  lemma {:induction false} ClassSumBound(binding: seq<nat>, lib: Library)
    requires lib.Valid() && AllBelow(binding, |lib.classes|)
    ensures ClassSum(binding, lib) <= 256 * |binding|
  {
    if binding != [] {
      ClassSumBound(binding[1..], lib);
    }
  }

  lemma {:induction false} ClassSumRises(binding: seq<nat>, s: nat, m: nat, lib: Library)
    requires AllBelow(binding, |lib.classes|) && s < |binding| && m < |lib.classes|
    ensures AllBelow(binding[s := m], |lib.classes|)
    ensures ClassSum(binding[s := m], lib) == ClassSum(binding, lib) + lib.classes[m] - lib.classes[binding[s]]
  {
    if s == 0 {
      assert binding[s := m][1..] == binding[1..];
    } else {
      assert binding[s := m][1..] == binding[1..][s - 1 := m];
      ClassSumRises(binding[1..], s - 1, m, lib);
    }
  }

  /** No symbol is bound to a lower class than before. */
  ghost predicate Rises(a: seq<nat>, b: seq<nat>, lib: Library) {
    |a| == |b| && AllBelow(a, |lib.classes|) && AllBelow(b, |lib.classes|)
    && forall s | 0 <= s < |a| :: lib.classes[a[s]] <= lib.classes[b[s]]
  }

  /** A symbol keeps its first definition, or takes one of the redefinitions. */
  ghost predicate Defined(s: nat, mod: nat, value: int, binding: seq<nat>, values: seq<int>, lib: Library)
    requires s < |binding| == |values|
  {
    (mod == binding[s] && value == values[s]) || Redefinition(s, mod, value) in lib.reds
  }

  /** The binding in use is at least as good as redefinition i. */
  predicate Outclassed(i: nat, binding: seq<nat>, lib: Library)
    requires lib.Valid() && Binds(binding, lib) && i < |lib.reds|
  {
    lib.classes[lib.reds[i].mod] <= lib.classes[binding[lib.reds[i].sym]]
  }

  ghost predicate AllOutclassed(from: int, to: int, binding: seq<nat>, lib: Library)
    requires lib.Valid() && Binds(binding, lib) && 0 <= from && to <= |lib.reds|
  {
    forall i | from <= i < to :: Outclassed(i, binding, lib)
  }

  predicate IsList(first: nat, next: seq<nat>, lib: Library) {
    |next| == |lib.reds| && first <= |next| && forall j | 0 <= j < |next| :: j < next[j] <= |next|
  }

  /** Redefinitions that are not on the list are outclassed. */
  ghost predicate Covered(first: nat, next: seq<nat>, binding: seq<nat>, lib: Library)
    requires lib.Valid() && Binds(binding, lib) && IsList(first, next, lib)
  {
    && AllOutclassed(0, first, binding, lib)
    && forall j | 0 <= j < |next| :: AllOutclassed(j + 1, next[j], binding, lib)
  }

  lemma CoveredStays(first: nat, next: seq<nat>, a: seq<nat>, b: seq<nat>, lib: Library)
    requires lib.Valid() && Binds(a, lib) && Binds(b, lib) && IsList(first, next, lib)
    requires Covered(first, next, a, lib) && Rises(a, b, lib)
    ensures Covered(first, next, b, lib)
  {
    StaysOutclassed(0, first, a, b, lib);
    forall j | 0 <= j < |next|
      ensures AllOutclassed(j + 1, next[j], b, lib)
    {
      assert AllOutclassed(j + 1, next[j], a, lib);
      StaysOutclassed(j + 1, next[j], a, b, lib);
    }
  }

  lemma StaysOutclassed(from: int, to: int, a: seq<nat>, b: seq<nat>, lib: Library)
    requires lib.Valid() && Binds(a, lib) && Binds(b, lib) && 0 <= from && to <= |lib.reds|
    requires AllOutclassed(from, to, a, lib) && Rises(a, b, lib)
    ensures AllOutclassed(from, to, b, lib)
  {
    forall i | from <= i < to
      ensures Outclassed(i, b, lib)
    {
      assert Outclassed(i, a, lib);
      assert lib.classes[a[lib.reds[i].sym]] <= lib.classes[b[lib.reds[i].sym]];
    }
  }

  /** The first redefinitions, where loaded, do not outrank the binding in use. */
  ghost predicate AllRespected(to: nat, loaded: seq<bool>, binding: seq<nat>, lib: Library)
    requires lib.Valid() && Binds(binding, lib) && |loaded| == |lib.classes| && to <= |lib.reds|
  {
    forall i | 0 <= i < to && loaded[lib.reds[i].mod] :: Outclassed(i, binding, lib)
  }

  lemma RespectStays(to: nat, loaded: seq<bool>, a: seq<nat>, b: seq<nat>, lib: Library)
    requires lib.Valid() && Binds(a, lib) && Binds(b, lib) && |loaded| == |lib.classes| && to <= |lib.reds|
    requires AllRespected(to, loaded, a, lib) && Rises(a, b, lib)
    ensures AllRespected(to, loaded, b, lib)
  {
    forall i | 0 <= i < to && loaded[lib.reds[i].mod]
      ensures Outclassed(i, b, lib)
    {
      assert Outclassed(i, a, lib);
      assert lib.classes[a[lib.reds[i].sym]] <= lib.classes[b[lib.reds[i].sym]];
    }
  }

  ghost predicate AllDefined(binding: seq<nat>, values: seq<int>, binding0: seq<nat>, values0: seq<int>, lib: Library) {
    && |binding| == |values| == |binding0| == |values0|
    && forall s | 0 <= s < |binding| :: Defined(s, binding[s], values[s], binding0, values0, lib)
  }

  // ---- which rebindings happen

  /** Where each symbol is bound, and its value there. */
  datatype Bound = Bound(binding: seq<nat>, values: seq<int>)
  {
    predicate Fits(lib: Library) {
      Binds(binding, lib) && |values| == |binding|
    }
  }

  /** A symbol takes redefinition r, of a loaded module and of a higher class than the binding in use. */
  predicate Takes(r: nat, loaded: seq<bool>, a: Bound, b: Bound, lib: Library)
    requires lib.Valid() && a.Fits(lib) && |loaded| == |lib.classes|
  {
    && r < |lib.reds| && loaded[lib.reds[r].mod]
    && lib.classes[a.binding[lib.reds[r].sym]] < lib.classes[lib.reds[r].mod]
    && b == Bound(a.binding[lib.reds[r].sym := lib.reds[r].mod], a.values[lib.reds[r].sym := lib.reds[r].value])
  }

  /** The redefinitions `picks` are taken in the order in which they were read. */
  ghost predicate Chain(states: seq<Bound>, picks: seq<nat>, loaded: seq<bool>, lib: Library)
    requires lib.Valid() && |loaded| == |lib.classes|
  {
    && |states| == |picks| + 1 && (forall i | 0 <= i < |states| :: states[i].Fits(lib))
    && (forall i | 0 <= i < |picks| :: Takes(picks[i], loaded, states[i], states[i + 1], lib))
    && (forall i, j | 0 <= i < j < |picks| :: picks[i] < picks[j])
  }

  /** A walk over the redefinitions before `to` leads from a to b. */
  ghost predicate Walks(a: Bound, b: Bound, to: nat, loaded: seq<bool>, lib: Library)
    requires lib.Valid() && |loaded| == |lib.classes|
  {
    exists states, picks :: Chain(states, picks, loaded, lib) && states[0] == a && states[|picks|] == b
                            && forall i | 0 <= i < |picks| :: picks[i] < to
  }

  ghost predicate IsReachable(loaded: seq<bool>, binding: seq<nat>, lib: Library)
    requires lib.Valid() && Binds(binding, lib)
  {
    |loaded| == |lib.classes| && forall m | 0 <= m < |loaded| :: loaded[m] <==> Reachable(m, binding, lib)
  }

  /** One round: a walk that sees exactly the modules that are reachable under the bindings it starts from. */
  ghost predicate Round(a: Bound, b: Bound, lib: Library)
    requires lib.Valid()
  {
    a.Fits(lib) && exists loaded :: IsReachable(loaded, a.binding, lib) && Walks(a, b, |lib.reds|, loaded, lib)
  }

  ghost predicate Rounds(run: seq<Bound>, lib: Library)
    requires lib.Valid()
  {
    run != [] && forall i | 0 < i < |run| :: Round(run[i - 1], run[i], lib)
  }

  ghost predicate Leads(a: Bound, b: Bound, lib: Library)
    requires lib.Valid()
  {
    exists run :: Rounds(run, lib) && run[0] == a && run[|run| - 1] == b
  }

  lemma ChainGrows(states: seq<Bound>, picks: seq<nat>, loaded: seq<bool>, r: nat, b: Bound, lib: Library)
    requires lib.Valid() && |loaded| == |lib.classes| && Chain(states, picks, loaded, lib)
    requires Takes(r, loaded, states[|picks|], b, lib) && b.Fits(lib) && forall i | 0 <= i < |picks| :: picks[i] < r
    ensures Chain(states + [b], picks + [r], loaded, lib)
  {
    var all, rs := states + [b], picks + [r];
    forall i | 0 <= i < |rs|
      ensures Takes(rs[i], loaded, all[i], all[i + 1], lib)
    {
      assert all[i] == states[i];
      assert i < |picks| ==> rs[i] == picks[i] && all[i + 1] == states[i + 1];
    }
  }

  lemma WalkStarts(a: Bound, loaded: seq<bool>, lib: Library)
    requires lib.Valid() && |loaded| == |lib.classes| && a.Fits(lib)
    ensures Walks(a, a, 0, loaded, lib)
  {
    var picks: seq<nat> := [];
    assert Chain([a], picks, loaded, lib);
  }

  lemma WalkTakes(a: Bound, b: Bound, r: nat, to: nat, loaded: seq<bool>, c: Bound, lib: Library)
    requires lib.Valid() && |loaded| == |lib.classes| && Walks(a, b, r, loaded, lib) && r < to
    requires b.Fits(lib) && c.Fits(lib) && Takes(r, loaded, b, c, lib)
    ensures Walks(a, c, to, loaded, lib)
  {
    var states, picks :| Chain(states, picks, loaded, lib) && states[0] == a && states[|picks|] == b
                         && forall i | 0 <= i < |picks| :: picks[i] < r;
    ChainGrows(states, picks, loaded, r, c, lib);
    assert (states + [c])[|picks + [r]|] == c;
  }

  lemma WalkPasses(a: Bound, b: Bound, r: nat, to: nat, loaded: seq<bool>, lib: Library)
    requires lib.Valid() && |loaded| == |lib.classes| && Walks(a, b, r, loaded, lib) && r <= to
    ensures Walks(a, b, to, loaded, lib)
  {
    var states, picks :| Chain(states, picks, loaded, lib) && states[0] == a && states[|picks|] == b
                         && forall i | 0 <= i < |picks| :: picks[i] < r;
  }

  lemma LeadsOn(a: Bound, b: Bound, c: Bound, lib: Library)
    requires lib.Valid() && Leads(a, b, lib) && Round(b, c, lib)
    ensures Leads(a, c, lib)
  {
    var run :| Rounds(run, lib) && run[0] == a && run[|run| - 1] == b;
    var more := run + [c];
    forall i | 0 < i < |more|
      ensures Round(more[i - 1], more[i], lib)
    {
      assert i < |run| ==> more[i - 1] == run[i - 1] && more[i] == run[i];
    }
    assert Rounds(more, lib) && more[0] == a && more[|more| - 1] == c;
  }

  /** No reachable module has a definition of higher class than the one in use. */
  ghost predicate Settled(binding: seq<nat>, lib: Library)
    requires lib.Valid() && Binds(binding, lib)
  {
    forall i | 0 <= i < |lib.reds| && Reachable(lib.reds[i].mod, binding, lib) :: Outclassed(i, binding, lib)
  }

  lemma TakenOutranks(r: nat, loaded: seq<bool>, a: Bound, b: Bound, lib: Library)
    requires lib.Valid() && a.Fits(lib) && IsReachable(loaded, a.binding, lib) && Takes(r, loaded, a, b, lib)
    ensures !Settled(a.binding, lib)
  {
    assert Reachable(lib.reds[r].mod, a.binding, lib) && !Outclassed(r, a.binding, lib);
  }

  lemma SettledRound(a: Bound, b: Bound, lib: Library)
    requires lib.Valid() && Round(a, b, lib) && Settled(a.binding, lib)
    ensures b == a
  {
    var loaded :| IsReachable(loaded, a.binding, lib) && Walks(a, b, |lib.reds|, loaded, lib);
    var states, picks :| Chain(states, picks, loaded, lib) && states[0] == a && states[|picks|] == b;
    if picks != [] {
      TakenOutranks(picks[0], loaded, states[0], states[1], lib);
      assert false;
    }
  }

  /** Bindings that are settled never change. */
  lemma {:induction false} SettledStays(run: seq<Bound>, i: nat, lib: Library)
    requires lib.Valid() && Rounds(run, lib) && i < |run| && run[0].Fits(lib) && Settled(run[0].binding, lib)
    ensures run[i] == run[0]
  {
    if i > 0 {
      SettledStays(run, i - 1, lib);
      SettledRound(run[i - 1], run[i], lib);
    }
  }

  lemma SettledIsKept(a: Bound, b: Bound, lib: Library)
    requires lib.Valid() && Leads(a, b, lib) && a.Fits(lib) && Settled(a.binding, lib)
    ensures b == a
  {
    var run :| Rounds(run, lib) && run[0] == a && run[|run| - 1] == b;
    SettledStays(run, |run| - 1, lib);
  }

  class Selector {
    const lib: Library
    var loaded: seq<bool>
    var binding: seq<nat>
    var values: seq<int>
    var next: seq<nat>
    var first: nat

    constructor (lib: Library, binding: seq<nat>, values: seq<int>)
      requires lib.Valid() && Binds(binding, lib) && |values| == lib.symbols
      ensures this.lib == lib && this.binding == binding && this.values == values
      ensures Valid() && Listed()
    {
      this.lib, this.binding, this.values := lib, binding, values;
      loaded := seq(|lib.classes|, _ => false);
      next := seq(|lib.reds|, i => i + 1);
      first := 0;
    }

    ghost predicate Valid()
      reads this
    {
      && lib.Valid() && Binds(binding, lib) && |loaded| == |lib.classes| && |values| == lib.symbols
      && IsList(first, next, lib)
    }

    ghost function Now(): Bound
      reads this
    {
      Bound(binding, values)
    }

    ghost predicate Listed()
      requires Valid()
      reads this
    {
      Covered(first, next, binding, lib)
    }

    /** What was loaded since `before` is complete and reachable. */
    ghost predicate Explored(before: seq<bool>)
      requires Valid() && |before| == |loaded|
      reads this
    {
      && Grows(before, loaded)
      && (forall k | 0 <= k < |loaded| && loaded[k] && !before[k] :: Complete(k, loaded, binding, lib))
      && (forall k | 0 <= k < |loaded| && loaded[k] && !before[k] :: Reachable(k, binding, lib))
    }

    /** `linkrefs` */
    method LinkRefs(m: nat)
      requires Valid() && m < |loaded| && Reachable(m, binding, lib)
      modifies this`loaded
      ensures Valid() && Explored(old(loaded)) && loaded[m] && Complete(m, loaded, binding, lib)
      decreases Unloaded(loaded), if loaded[m] then 2 else 0
    {
      loaded := loaded[m := true];
      ghost var marked := loaded;
      UnloadedFalls(old(loaded), loaded);
      var refs, i := lib.refs[m], 0;
      while i < |refs|
        invariant Valid() && 0 <= i <= |refs| && Explored(marked) && loaded[m]
        invariant forall j | 0 <= j < i :: loaded[binding[refs[j]]]
      {
        assert Edge(m, binding[refs[i]], binding, lib);
        UnloadedFalls(marked, loaded);
        Follow(m, binding[refs[i]], marked);
        i := i + 1;
      }
    }

    /** A reference from m to n: load n unless it is loaded. */
    method Follow(ghost m: nat, n: nat, ghost marked: seq<bool>)
      requires Valid() && Reachable(m, binding, lib) && n < |loaded| && Edge(m, n, binding, lib)
      requires |marked| == |loaded| && Explored(marked)
      modifies this`loaded
      ensures Valid() && Grows(old(loaded), loaded) && Explored(marked) && loaded[n]
      decreases Unloaded(loaded), 1
    {
      if !loaded[n] {
        EdgeIsReachable(m, n, binding, lib);
        LinkRefs(n);
        ExploredChains(marked, old(loaded));
      }
    }

    lemma ExploredChains(a: seq<bool>, b: seq<bool>)
      requires Valid() && |a| == |b| == |loaded| && Grows(a, b) && Explored(b)
      requires forall k | 0 <= k < |b| && b[k] && !a[k] :: Complete(k, b, binding, lib)
      requires forall k | 0 <= k < |b| && b[k] && !a[k] :: Reachable(k, binding, lib)
      ensures Explored(a)
    {
      forall k | 0 <= k < |loaded| && loaded[k] && !a[k]
        ensures Complete(k, loaded, binding, lib)
      {
        if b[k] {
          assert Complete(k, b, binding, lib);
        }
      }
    }

    /** Nothing is loaded but what is reachable, and that completely. */
    ghost predicate Sound()
      requires Valid()
      reads this
    {
      forall k | 0 <= k < |loaded| && loaded[k] :: Complete(k, loaded, binding, lib) && Reachable(k, binding, lib)
    }

    lemma SoundAfter(before: seq<bool>)
      requires Valid() && |before| == |loaded| && Explored(before)
      requires forall k | 0 <= k < |before| && before[k] :: Complete(k, before, binding, lib) && Reachable(k, binding, lib)
      ensures Sound()
    {
      forall k | 0 <= k < |loaded| && loaded[k]
        ensures Complete(k, loaded, binding, lib)
      {
        if before[k] {
          assert Complete(k, before, binding, lib);
        }
      }
    }

    method LoadRoot(m: nat)
      requires Valid() && m < |loaded| && Root(m, binding, lib) && Sound()
      modifies this`loaded
      ensures Valid() && Sound() && Grows(old(loaded), loaded) && loaded[m]
    {
      RootIsReachable(m, binding, lib);
      LinkRefs(m);
      SoundAfter(old(loaded));
    }

    method LoadEntries()
      requires Valid() && Sound()
      modifies this`loaded
      ensures Valid() && Sound() && forall j | 0 <= j < |lib.entries| :: loaded[binding[lib.entries[j]]]
    {
      var i := 0;
      while i < |lib.entries|
        invariant Valid() && Sound() && 0 <= i <= |lib.entries|
        invariant forall j | 0 <= j < i :: loaded[binding[lib.entries[j]]]
      {
        LoadRoot(binding[lib.entries[i]]);
        i := i + 1;
      }
    }

    method LoadKept()
      requires Valid() && Sound()
      modifies this`loaded
      ensures Valid() && Sound() && Grows(old(loaded), loaded) && forall j | 0 <= j < |lib.kept| :: loaded[lib.kept[j]]
    {
      var i := 0;
      while i < |lib.kept|
        invariant Valid() && Sound() && 0 <= i <= |lib.kept| && Grows(old(loaded), loaded)
        invariant forall j | 0 <= j < i :: loaded[lib.kept[j]]
      {
        LoadRoot(lib.kept[i]);
        i := i + 1;
      }
    }

    /** Load from scratch: exactly the reachable modules. */
    method LoadAll()
      requires Valid()
      modifies this`loaded
      ensures Valid() && LoadsReachable()
    {
      loaded := seq(|lib.classes|, _ => false);
      LoadEntries();
      LoadKept();
      LoadedIsReachable();
    }

    lemma LoadedIsReachable()
      requires Valid() && Sound()
      requires forall j | 0 <= j < |lib.entries| :: loaded[binding[lib.entries[j]]]
      requires forall j | 0 <= j < |lib.kept| :: loaded[lib.kept[j]]
      ensures forall m | 0 <= m < |loaded| :: loaded[m] <==> Reachable(m, binding, lib)
    {
      forall m | 0 <= m < |loaded| && Reachable(m, binding, lib)
        ensures loaded[m]
      {
        var p :| Path(p, binding, lib) && Root(p[0], binding, lib) && p[|p| - 1] == m;
        ClosedHoldsPath(p, |p| - 1, loaded, binding, lib);
      }
    }

    /** Bind a symbol to redefinition r. */
    method Bind(r: nat)
      requires Valid() && Listed() && r < |lib.reds| && !Outclassed(r, binding, lib)
      modifies this`binding, this`values
      ensures Valid() && Listed() && Outclassed(r, binding, lib)
      ensures Rises(old(binding), binding, lib) && ClassSum(old(binding), lib) < ClassSum(binding, lib)
      ensures binding == old(binding)[lib.reds[r].sym := lib.reds[r].mod]
      ensures values == old(values)[lib.reds[r].sym := lib.reds[r].value]
    {
      var red := lib.reds[r];
      ClassSumRises(binding, red.sym, red.mod, lib);
      binding := binding[red.sym := red.mod];
      values := values[red.sym := red.value];
      CoveredStays(first, next, old(binding), binding, lib);
    }

    /** Take r off the list, after p. */
    method Unlink(r: nat, p: nat)
      requires Valid() && Listed() && r < |lib.reds| && Outclassed(r, binding, lib)
      requires r != first ==> p < r && next[p] == r
      modifies this`next, this`first
      ensures Valid() && Listed() && next[r] == old(next[r])
    {
      assert AllOutclassed(r + 1, next[r], binding, lib);
      if r == first {
        first := next[r];
      } else {
        assert AllOutclassed(p + 1, next[p], binding, lib);
        next := next[p := next[r]];
        forall j | 0 <= j < |next|
          ensures AllOutclassed(j + 1, next[j], binding, lib)
        {
          if j != p {
            assert AllOutclassed(j + 1, old(next)[j], binding, lib);
          }
        }
      }
    }

    /** Redefinition r, which follows p on the list. */
    method Consider(r: nat, p: nat) returns (taken: bool)
      requires Valid() && Listed() && r < |lib.reds| && (r != first ==> p < r && next[p] == r)
      requires AllRespected(r, loaded, binding, lib)
      modifies this`binding, this`values, this`next, this`first
      ensures Valid() && Listed() && next[r] == old(next[r]) && Rises(old(binding), binding, lib)
      ensures AllRespected(next[r], loaded, binding, lib)
      ensures taken ==> ClassSum(old(binding), lib) < ClassSum(binding, lib)
      ensures taken ==> binding == old(binding)[lib.reds[r].sym := lib.reds[r].mod]
                        && values == old(values)[lib.reds[r].sym := lib.reds[r].value]
      ensures !taken ==> binding == old(binding) && values == old(values)
      ensures taken <==> loaded[lib.reds[r].mod] && lib.classes[old(binding)[lib.reds[r].sym]] < lib.classes[lib.reds[r].mod]
    {
      taken := loaded[lib.reds[r].mod] && lib.classes[lib.reds[r].mod] > lib.classes[binding[lib.reds[r].sym]];
      if taken {
        Bind(r);
        RespectStays(r, loaded, old(binding), binding, lib);
        Unlink(r, p);
      }
      assert AllOutclassed(r + 1, next[r], binding, lib);
    }

    /** One walk over the list of redefinitions. */
    method Rebind() returns (needlink: bool)
      requires Valid() && Listed()
      modifies this`binding, this`values, this`next, this`first
      ensures Valid() && Listed() && Rises(old(binding), binding, lib)
      ensures AllRespected(|lib.reds|, loaded, binding, lib)
      ensures needlink ==> ClassSum(old(binding), lib) < ClassSum(binding, lib)
      ensures !needlink ==> binding == old(binding) && values == old(values)
      ensures AllDefined(binding, values, old(binding), old(values), lib)
      ensures Walks(old(Now()), Now(), |lib.reds|, loaded, lib)
    {
      needlink := false;
      var p: nat, r: nat := 0, first;
      WalkStarts(Now(), loaded, lib);
      WalkPasses(Now(), Now(), 0, r, loaded, lib);
      while r < |next|
        invariant Valid() && Listed() && r <= |next| && Rises(old(binding), binding, lib)
        invariant r == first || (p < r && next[p] == r)
        invariant AllRespected(r, loaded, binding, lib)
        invariant if needlink then ClassSum(old(binding), lib) < ClassSum(binding, lib)
                  else binding == old(binding) && values == old(values)
        invariant AllDefined(binding, values, old(binding), old(values), lib)
        invariant Walks(old(Now()), Now(), r, loaded, lib)
        decreases |next| - r
      {
        ghost var b, v := binding, values;
        var taken := Consider(r, p);
        if taken {
          needlink := true;
          WalkTakes(old(Now()), Bound(b, v), r, next[r], loaded, Now(), lib);
          TakenIsDefined(r, b, v, old(binding), old(values));
        } else {
          WalkPasses(old(Now()), Now(), r, next[r], loaded, lib);
        }
        p, r := r, next[r];
      }
    }

    lemma TakenIsDefined(r: nat, b: seq<nat>, v: seq<int>, binding0: seq<nat>, values0: seq<int>)
      requires r < |lib.reds| && lib.reds[r].sym < |b| && AllDefined(b, v, binding0, values0, lib)
      ensures AllDefined(b[lib.reds[r].sym := lib.reds[r].mod], v[lib.reds[r].sym := lib.reds[r].value],
                         binding0, values0, lib)
    {
      assert lib.reds[r] in lib.reds;
    }

    lemma DefinedChains(b1: seq<nat>, v1: seq<int>, binding0: seq<nat>, values0: seq<int>)
      requires AllDefined(binding, values, b1, v1, lib) && AllDefined(b1, v1, binding0, values0, lib)
      ensures AllDefined(binding, values, binding0, values0, lib)
    {
      forall s | 0 <= s < |binding|
        ensures Defined(s, binding[s], values[s], binding0, values0, lib)
      {
        assert Defined(s, binding[s], values[s], b1, v1, lib) && Defined(s, b1[s], v1[s], binding0, values0, lib);
      }
    }

    ghost predicate LoadsReachable()
      requires Valid()
      reads this
    {
      forall m | 0 <= m < |loaded| :: loaded[m] <==> Reachable(m, binding, lib)
    }

    /** Load, bind to loaded redefinitions of a higher class, and repeat. On exit exactly
        the reachable modules are loaded, and no loaded redefinition outranks the
        binding in use. Each round rebinds only to modules that it can reach. */
    method LinkSymbols()
      requires Valid() && Listed()
      modifies this
      ensures Valid() && LoadsReachable() && AllRespected(|lib.reds|, loaded, binding, lib)
      ensures Rises(old(binding), binding, lib) && AllDefined(binding, values, old(binding), old(values), lib)
      ensures Leads(old(Now()), Now(), lib)
      ensures old(Settled(binding, lib)) ==> Now() == old(Now())
    {
      var needlink := true;
      assert Rounds([Now()], lib);
      while needlink
        invariant Valid() && Listed() && Rises(old(binding), binding, lib)
        invariant !needlink ==> LoadsReachable() && AllRespected(|lib.reds|, loaded, binding, lib)
        invariant AllDefined(binding, values, old(binding), old(values), lib)
        invariant Leads(old(Now()), Now(), lib)
        decreases 256 * lib.symbols - ClassSum(binding, lib), needlink
      {
        LoadAll();
        ghost var b, v := binding, values;
        assert IsReachable(loaded, binding, lib);
        needlink := Rebind();
        assert Round(Bound(b, v), Now(), lib);
        LeadsOn(old(Now()), Bound(b, v), Now(), lib);
        DefinedChains(b, v, old(binding), old(values));
        ClassSumBound(binding, lib);
      }
      if old(Settled(binding, lib)) {
        SettledIsKept(old(Now()), Now(), lib);
      }
    }
  }
}
