/** Reading the symbols of modules (ld/readobj.c:171-211, 275-310): which definition a
    symbol is bound to, and which ones wait on the list of redefinitions. */
module SymbolTable {
  import opened Prelude

  const ANYSEG := 15

  /** A symbol record is exported or imported; an import's value is the size of a
      common block, or 0. */
  datatype Flags = Flags(exported: bool, absolute: bool, seg: nat)

  datatype Sym = Sym(mod: nat, value: int, flags: Flags)

  datatype Red = Red(name: string, mod: nat, value: int)

  /** A definition: its module and value. */
  type Def = (nat, int)

  function RedsOf(name: string, reds: seq<Red>): set<Def> {
    set i | 0 <= i < |reds| && reds[i].name == name :: (reds[i].mod, reds[i].value)
  }

  lemma RedsOfAppend(name: string, reds: seq<Red>, r: Red)
    ensures RedsOf(name, reds + [r]) == RedsOf(name, reds) + (if r.name == name then {(r.mod, r.value)} else {})
  {
    var all := reds + [r];
    forall d | d in RedsOf(name, all)
      ensures d in RedsOf(name, reds) + (if r.name == name then {(r.mod, r.value)} else {})
    {
      var i :| 0 <= i < |all| && all[i].name == name && d == (all[i].mod, all[i].value);
    }
    forall d | d in RedsOf(name, reds) + (if r.name == name then {(r.mod, r.value)} else {})
      ensures d in RedsOf(name, all)
    {
      if d in RedsOf(name, reds) {
        var i :| 0 <= i < |reds| && reds[i].name == name && d == (reds[i].mod, reds[i].value);
        assert all[i] == reds[i];
      } else {
        assert all[|reds|] == r;
      }
    }
  }

  /** The largest segment number stands for any segment. */
  function Weakened(a: Flags, b: Flags): Flags {
    if a.seg == ANYSEG then a.(seg := b.seg) else a
  }

  predicate Mismatch(a: Flags, b: Flags) {
    var x, y := Weakened(a, b), if a.seg == ANYSEG then b else Weakened(b, a);
    x.absolute != y.absolute || x.seg != y.seg
  }

  /** The classes of the modules read so far, the bindings and the redefinitions; and,
      per symbol, the exporters that were recorded and the sizes of imports seen. */
  datatype View = View(classes: seq<int>, syms: map<string, Sym>, reds: seq<Red>,
                       exporters: map<string, set<Def>>, sizes: map<string, set<int>>)
  {
    predicate Bounds() {
      && syms.Keys == exporters.Keys == sizes.Keys
      && (forall name <- syms :: syms[name].mod < |classes|)
      && (forall i | 0 <= i < |reds| :: reds[i].mod < |classes| && reds[i].name in syms)
    }

    /** The binding of an exported symbol and its redefinitions are all its exporters;
        the binding has the lowest class. */
    predicate ExportedOk(name: string)
      requires Bounds() && name in syms
    {
      && exporters[name] == {(syms[name].mod, syms[name].value)} + RedsOf(name, reds)
      && forall i | 0 <= i < |reds| && reds[i].name == name :: classes[syms[name].mod] < classes[reds[i].mod]
    }

    /** Without exporters the value is the largest common size seen. */
    predicate CommonOk(name: string)
      requires Bounds() && name in syms
    {
      && exporters[name] == {} && (forall i | 0 <= i < |reds| :: reds[i].name != name)
      && syms[name].value in sizes[name] && forall n <- sizes[name] :: n <= syms[name].value
    }

    predicate SymbolOk(name: string)
      requires Bounds() && name in syms
    {
      if syms[name].flags.exported then ExportedOk(name) else CommonOk(name)
    }

    /** Redefinitions of the same symbol have different classes. */
    predicate Distinct()
      requires Bounds()
    {
      forall i, j | 0 <= i < j < |reds| && reds[i].name == reds[j].name :: classes[reds[i].mod] != classes[reds[j].mod]
    }

    predicate Ok() {
      Bounds() && Distinct() && forall name <- syms :: SymbolOk(name)
    }

    /** A module of this class was recorded as an exporter. */
    ghost predicate Taken(name: string, rank: int)
      requires Bounds() && name in syms
    {
      exists d <- exporters[name] :: d.0 < |classes| && classes[d.0] == rank
    }
  }

  lemma TakenMeans(v: View, name: string, rank: int)
    requires v.Ok() && name in v.syms && v.syms[name].flags.exported
    ensures v.Taken(name, rank) <==> (v.classes[v.syms[name].mod] == rank
              || exists i | 0 <= i < |v.reds| :: v.reds[i].name == name && v.classes[v.reds[i].mod] == rank)
  {
    var s := v.syms[name];
    assert v.SymbolOk(name);
    if v.classes[s.mod] == rank {
      assert (s.mod, s.value) in v.exporters[name];
    } else if i :| 0 <= i < |v.reds| && v.reds[i].name == name && v.classes[v.reds[i].mod] == rank {
      assert (v.reds[i].mod, v.reds[i].value) in v.exporters[name];
    }
  }

  /** Another exporter, of a class that was not recorded: the lower class is preferred,
      and the other definition goes on the list. */
  function Redefined(v: View, name: string, m: nat, value: int): View
    requires v.Bounds() && name in v.syms && m < |v.classes|
  {
    var s := v.syms[name];
    var exporters := v.exporters[name := v.exporters[name] + {(m, value)}];
    if v.classes[s.mod] < v.classes[m] then v.(reds := v.reds + [Red(name, m, value)], exporters := exporters)
    else v.(reds := v.reds + [Red(name, s.mod, s.value)], exporters := exporters, syms := v.syms[name := Sym(m, value, s.flags)])
  }

  lemma RedefinedBounds(v: View, name: string, m: nat, value: int)
    requires v.Bounds() && name in v.syms && m < |v.classes|
    ensures Redefined(v, name, m, value).Bounds()
  {
  }

  lemma RedefinedDistinct(v: View, name: string, m: nat, value: int)
    requires v.Bounds() && v.Distinct() && name in v.syms && m < |v.classes| && v.ExportedOk(name)
    requires v.classes[v.syms[name].mod] != v.classes[m]
    requires forall i | 0 <= i < |v.reds| && v.reds[i].name == name :: v.classes[v.reds[i].mod] != v.classes[m]
    ensures Redefined(v, name, m, value).Bounds() && Redefined(v, name, m, value).Distinct()
  {
    RedefinedBounds(v, name, m, value);
  }

  lemma OthersOk(v: View, name: string, m: nat, value: int, x: string)
    requires v.Bounds() && name in v.syms && m < |v.classes| && x in v.syms && x != name && v.SymbolOk(x)
    ensures Redefined(v, name, m, value).Bounds() && Redefined(v, name, m, value).SymbolOk(x)
  {
    RedefinedBounds(v, name, m, value);
    RedsOfAppend(x, v.reds, Redefined(v, name, m, value).reds[|v.reds|]);
  }

  lemma RedefinedSymbolOk(v: View, name: string, m: nat, value: int)
    requires v.Bounds() && name in v.syms && v.syms[name].flags.exported && m < |v.classes| && v.ExportedOk(name)
    requires v.classes[v.syms[name].mod] != v.classes[m]
    ensures Redefined(v, name, m, value).Bounds() && Redefined(v, name, m, value).ExportedOk(name)
  {
    RedefinedBounds(v, name, m, value);
    var w, s := Redefined(v, name, m, value), v.syms[name];
    RedsOfAppend(name, v.reds, w.reds[|v.reds|]);
    assert w.exporters[name] == {(s.mod, s.value), (m, value)} + RedsOf(name, v.reds);
  }

  lemma RedefinedOk(v: View, name: string, m: nat, value: int)
    requires v.Ok() && name in v.syms && v.syms[name].flags.exported && m < |v.classes| && !v.Taken(name, v.classes[m])
    ensures Redefined(v, name, m, value).Ok()
  {
    TakenMeans(v, name, v.classes[m]);
    assert v.SymbolOk(name);
    RedefinedDistinct(v, name, m, value);
    RedefinedSymbolOk(v, name, m, value);
    OthersStayOk(v, name, m, value);
  }

  lemma OthersStayOk(v: View, name: string, m: nat, value: int)
    requires v.Ok() && name in v.syms && m < |v.classes|
    ensures Redefined(v, name, m, value).Bounds()
    ensures forall x <- v.syms | x != name :: Redefined(v, name, m, value).SymbolOk(x)
  {
    RedefinedBounds(v, name, m, value);
    forall x <- v.syms | x != name
      ensures Redefined(v, name, m, value).SymbolOk(x)
    {
      OthersOk(v, name, m, value, x);
    }
  }

  /** A symbol without exporters takes the record. */
  function Replaced(v: View, name: string, s: Sym): View
    requires v.Bounds()
  {
    var sizes := if name in v.syms then v.sizes[name] else {};
    if s.flags.exported then
      v.(syms := v.syms[name := s], exporters := v.exporters[name := {(s.mod, s.value)}], sizes := v.sizes[name := sizes])
    else v.(syms := v.syms[name := s], exporters := v.exporters[name := {}], sizes := v.sizes[name := sizes + {s.value}])
  }

  lemma ReplacedOk(v: View, name: string, s: Sym)
    requires v.Ok() && s.mod < |v.classes|
    requires name in v.syms ==> !v.syms[name].flags.exported && (s.flags.exported || v.syms[name].value < s.value)
    ensures Replaced(v, name, s).Ok()
  {
    var w := Replaced(v, name, s);
    assert name in v.syms ==> v.SymbolOk(name);
    forall x <- w.syms
      ensures w.SymbolOk(x)
    {
      assert x != name ==> v.SymbolOk(x);
    }
  }

  /** The symbol's flags after its segment was weakened. */
  function Adjusted(v: View, name: string, flags: Flags): View
    requires v.Bounds() && name in v.syms
  {
    v.(syms := v.syms[name := v.syms[name].(flags := Weakened(v.syms[name].flags, flags))])
  }

  lemma AdjustedOk(v: View, name: string, flags: Flags)
    requires v.Ok() && name in v.syms
    ensures Adjusted(v, name, flags).Ok()
  {
    var w := Adjusted(v, name, flags);
    forall x <- w.syms
      ensures w.SymbolOk(x)
    {
      assert v.SymbolOk(x);
    }
  }

  function Seen(v: View, name: string, size: int): View
    requires v.Bounds() && name in v.syms
  {
    v.(sizes := v.sizes[name := v.sizes[name] + {size}])
  }

  lemma SeenOk(v: View, name: string, size: int)
    requires v.Ok() && name in v.syms && size <= v.syms[name].value
    ensures Seen(v, name, size).Ok()
  {
    var w := Seen(v, name, size);
    forall x <- w.syms
      ensures w.SymbolOk(x)
    {
      assert v.SymbolOk(x);
    }
  }

  function NewFlags(a: Flags, b: Flags): Flags {
    if a.seg == ANYSEG then b else Weakened(b, a)
  }

  /** The last module's record of a symbol: the new view, and whether it was refused. */
  ghost function Read(v: View, name: string, flags: Flags, value: int): (View, bool)
    requires v.Bounds() && |v.classes| > 0
  {
    var m := |v.classes| - 1;
    if name !in v.syms then (Replaced(v, name, Sym(m, value, flags)), false)
    else
      var s, w := v.syms[name], Adjusted(v, name, flags);
      if Mismatch(s.flags, flags) then (w, true)
      else if s.flags.exported then
        if !flags.exported then (w, false)
        else if w.Taken(name, v.classes[m]) then (w, true)
        else (Redefined(w, name, m, value), false)
      else if !flags.exported && value <= s.value then (Seen(w, name, value), false)
      else (Replaced(w, name, Sym(m, value, NewFlags(s.flags, flags))), false)
  }

  /** Whatever the order in which records are read, bindings stay lowest in class. */
  lemma ReadKeepsOk(v: View, name: string, flags: Flags, value: int)
    requires v.Ok() && |v.classes| > 0
    ensures Read(v, name, flags, value).0.Ok()
  {
    var m := |v.classes| - 1;
    if name !in v.syms {
      ReplacedOk(v, name, Sym(m, value, flags));
    } else {
      var s, w := v.syms[name], Adjusted(v, name, flags);
      AdjustedOk(v, name, flags);
      if !Mismatch(s.flags, flags) {
        if s.flags.exported {
          if flags.exported && !w.Taken(name, v.classes[m]) {
            RedefinedOk(w, name, m, value);
          }
        } else if !flags.exported && value <= s.value {
          SeenOk(w, name, value);
        } else {
          ReplacedOk(w, name, Sym(m, value, NewFlags(s.flags, flags)));
        }
      }
    }
  }

  /** Flags agree when both are absolute or both are not, and their segments are the same or one of
      them stands for any. */
  predicate Agree(a: Flags, b: Flags) {
    a.absolute == b.absolute && (a.seg == b.seg || a.seg == 15 || b.seg == 15)
  }

  /** Exactly these records are refused: those whose flags do not agree with what is known, and a second
      exporter of a class that already has one. */
  lemma ReadRefuses(v: View, name: string, flags: Flags, value: int)
    requires v.Bounds() && |v.classes| > 0
    ensures Read(v, name, flags, value).1 <==>
              name in v.syms
              && (!Agree(v.syms[name].flags, flags)
                  || (v.syms[name].flags.exported && flags.exported
                      && exists d <- v.exporters[name] :: d.0 < |v.classes| && v.classes[d.0] == v.classes[|v.classes| - 1]))
  {
  }

  /** A record that agrees: the symbol is exported once a module exports it, and keeps its segment, or
      gets the one of the record if it had any. */
  lemma ReadRefines(v: View, name: string, flags: Flags, value: int)
    requires v.Bounds() && |v.classes| > 0 && !Read(v, name, flags, value).1
    ensures name in Read(v, name, flags, value).0.syms
    ensures name !in v.syms ==> Read(v, name, flags, value).0.syms[name].flags == flags
    ensures name in v.syms ==>
              Read(v, name, flags, value).0.syms[name].flags
              == Flags(v.syms[name].flags.exported || flags.exported, flags.absolute,
                       if v.syms[name].flags.seg != 15 then v.syms[name].flags.seg else flags.seg)
    ensures forall x <- v.syms | x != name :: Read(v, name, flags, value).0.syms[x] == v.syms[x]
  {
  }

  /** The binding in use has the lowest class of all recorded exporters. */
  lemma BindingIsLowest(v: View, name: string, d: Def)
    requires v.Ok() && name in v.syms && v.syms[name].flags.exported && d in v.exporters[name]
    ensures d.0 < |v.classes| && v.classes[v.syms[name].mod] <= v.classes[d.0]
    ensures v.classes[v.syms[name].mod] == v.classes[d.0] <==> d == (v.syms[name].mod, v.syms[name].value)
  {
    assert v.SymbolOk(name);
    if d in RedsOf(name, v.reds) {
      var i :| 0 <= i < |v.reds| && v.reds[i].name == name && d == (v.reds[i].mod, v.reds[i].value);
    }
  }

  /** A record that is accepted as an exporter is recorded, and nothing is forgotten. */
  lemma ReadRecords(v: View, name: string, flags: Flags, value: int)
    requires v.Ok() && |v.classes| > 0
    ensures name in Read(v, name, flags, value).0.exporters
    ensures flags.exported && !Read(v, name, flags, value).1 ==>
              Read(v, name, flags, value).0.exporters[name]
              == (if name in v.syms then v.exporters[name] else {}) + {(|v.classes| - 1, value)}
    ensures forall x <- v.syms | x != name || !flags.exported || Read(v, name, flags, value).1 ::
              Read(v, name, flags, value).0.exporters[x] == v.exporters[x]
  {
    if name in v.syms {
      assert v.SymbolOk(name);
    }
  }

  /** The search of `redsym` */
  method Search(classes: seq<int>, reds: seq<Red>, name: string, rank: int) returns (found: bool)
    requires forall i | 0 <= i < |reds| :: reds[i].mod < |classes|
    ensures found <==> exists i | 0 <= i < |reds| :: reds[i].name == name && classes[reds[i].mod] == rank
  {
    var i := 0;
    while i < |reds|
      invariant 0 <= i <= |reds|
      invariant forall j | 0 <= j < i :: reds[j].name != name || classes[reds[j].mod] != rank
    {
      if reds[i].name == name && classes[reds[i].mod] == rank {
        return true;
      }
      i := i + 1;
    }
    found := false;
  }

  class Table {
    var classes: seq<int>
    var syms: map<string, Sym>
    var reds: seq<Red>
    ghost var exporters: map<string, set<Def>>
    ghost var sizes: map<string, set<int>>

    ghost function Now(): View
      reads this
    {
      View(classes, syms, reds, exporters, sizes)
    }

    constructor ()
      ensures Now() == View([], map[], [], map[], map[]) && Now().Ok()
    {
      classes, syms, reds, exporters, sizes := [], map[], [], map[], map[];
    }

    method AddModule(rank: int)
      requires Now().Ok()
      modifies this`classes
      ensures Now() == old(Now()).(classes := old(classes) + [rank]) && Now().Ok()
    {
      ghost var v := Now();
      classes := classes + [rank];
      forall x <- syms
        ensures Now().SymbolOk(x)
      {
        assert v.SymbolOk(x);
      }
    }

    /** The rest of `redsym` */
    method Redefine(name: string, value: int)
      requires Now().Bounds() && |classes| > 0 && name in syms
      modifies this`syms, this`reds, this`exporters
      ensures Now() == Redefined(old(Now()), name, |classes| - 1, value)
    {
      var m, s := |classes| - 1, syms[name];
      exporters := exporters[name := exporters[name] + {(m, value)}];
      if classes[s.mod] < classes[m] {
        reds := reds + [Red(name, m, value)];
      } else {
        reds := reds + [Red(name, s.mod, s.value)];
        syms := syms[name := Sym(m, value, s.flags)];
      }
    }

    method Replace(name: string, s: Sym)
      requires Now().Bounds()
      modifies this`syms, this`exporters, this`sizes
      ensures Now() == Replaced(old(Now()), name, s)
    {
      ghost var v := Replaced(Now(), name, s);
      syms, exporters, sizes := syms[name := s], v.exporters, v.sizes;
    }

    /** Whether the last module's class is already among the exporters. */
    method IsTaken(name: string) returns (taken: bool)
      requires Now().Ok() && |classes| > 0 && name in syms && syms[name].flags.exported
      ensures taken == Now().Taken(name, classes[|classes| - 1])
    {
      TakenMeans(Now(), name, classes[|classes| - 1]);
      taken := classes[syms[name].mod] == classes[|classes| - 1];
      if !taken {
        taken := Search(classes, reds, name, classes[|classes| - 1]);
      }
    }

    /** A record of a symbol that is already exported. */
    method ReadAgain(name: string, flags: Flags, value: int) returns (redefined: bool)
      requires Now().Ok() && |classes| > 0 && name in syms && syms[name].flags.exported
      modifies this`syms, this`reds, this`exporters
      ensures redefined == (flags.exported && old(Now()).Taken(name, classes[|classes| - 1]))
      ensures Now() == if flags.exported && !redefined then Redefined(old(Now()), name, |classes| - 1, value) else old(Now())
    {
      redefined := false;
      if flags.exported {
        redefined := IsTaken(name);
        if !redefined {
          Redefine(name, value);
        }
      }
    }

    method Adjust(name: string, flags: Flags)
      requires Now().Bounds() && name in syms
      modifies this`syms
      ensures Now() == Adjusted(old(Now()), name, flags)
    {
      syms := syms[name := syms[name].(flags := Weakened(syms[name].flags, flags))];
    }

    /** A record that fits an import. */
    method ReadImported(name: string, flags: Flags, was: Flags, value: int)
      requires Now().Bounds() && |classes| > 0 && name in syms
      modifies this`syms, this`exporters, this`sizes
      ensures Now() == if !flags.exported && value <= old(syms[name].value) then Seen(old(Now()), name, value)
                       else Replaced(old(Now()), name, Sym(|classes| - 1, value, NewFlags(was, flags)))
    {
      if !flags.exported && value <= syms[name].value {
        sizes := sizes[name := sizes[name] + {value}];
      } else {
        Replace(name, Sym(|classes| - 1, value, NewFlags(was, flags)));
      }
    }

    /** A record of a symbol whose flags were adjusted and match. */
    method ReadKnown(name: string, flags: Flags, was: Flags, value: int) returns (redefined: bool)
      requires Now().Ok() && |classes| > 0 && name in syms && syms[name].flags.exported == was.exported
      modifies this`syms, this`reds, this`exporters, this`sizes
      ensures redefined == (was.exported && flags.exported && old(Now()).Taken(name, classes[|classes| - 1]))
      ensures Now() == if was.exported then
                         if flags.exported && !redefined then Redefined(old(Now()), name, |classes| - 1, value) else old(Now())
                       else if !flags.exported && value <= old(syms[name].value) then Seen(old(Now()), name, value)
                       else Replaced(old(Now()), name, Sym(|classes| - 1, value, NewFlags(was, flags)))
    {
      redefined := false;
      if was.exported {
        redefined := ReadAgain(name, flags, value);
      } else {
        ReadImported(name, flags, was, value);
      }
    }

    /** One symbol record of the last module. */
    method ReadSymbol(name: string, flags: Flags, value: int) returns (redefined: bool)
      requires Now().Ok() && |classes| > 0
      modifies this`syms, this`reds, this`exporters, this`sizes
      ensures (Now(), redefined) == Read(old(Now()), name, flags, value)
    {
      redefined := false;
      if name !in syms {
        Replace(name, Sym(|classes| - 1, value, flags));
      } else {
        AdjustedOk(Now(), name, flags);
        var was := syms[name].flags;
        Adjust(name, flags);
        if Mismatch(was, flags) {
          redefined := true;
        } else {
          redefined := ReadKnown(name, flags, was, value);
        }
      }
    }
  }
}
