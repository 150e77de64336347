/** Where the linker puts the input sections that no statement of the script takes. */
module OrphanPlacement {
  import opened Prelude
  import opened ScriptSyntax
  import opened Placement

  predicate OfKind(ss: seq<Section>, kind: bool, i: nat) {
    i < |ss| && ss[i].datapart == kind
  }

  predicate LoadableOfKind(ss: seq<Section>, kind: bool, i: nat) {
    OfKind(ss, kind, i) && !ss[i].noload
  }

  /** Some input statement, in a ONEPAGE block or not, is for the files "*". */
  ghost predicate ForAllFiles(s: Stmt) {
    exists k | 0 <= k < |Inputs(s)| :: Inputs(s)[k].0 == Some("*")
  }

  ghost predicate TakesAll(ss: seq<Section>, kind: bool, i: nat) {
    LoadableOfKind(ss, kind, i) && ForAllFiles(ss[i].body)
  }

  /** The last loadable section of the kind that takes all files; without any, the first loadable one of
      the kind; without any, the first one of the kind. */
  ghost predicate Prefers(ss: seq<Section>, kind: bool, h: nat) {
    if exists i :: TakesAll(ss, kind, i) then TakesAll(ss, kind, h) && forall i | h < i :: !TakesAll(ss, kind, i)
    else if exists i :: LoadableOfKind(ss, kind, i) then
      LoadableOfKind(ss, kind, h) && forall i: nat | i < h :: !LoadableOfKind(ss, kind, i)
    else OfKind(ss, kind, h) && forall i: nat | i < h :: !OfKind(ss, kind, i)
  }

  lemma ForAllConcat(a: seq<(Option<string>, seq<string>)>, b: seq<(Option<string>, seq<string>)>)
    ensures (exists k | 0 <= k < |a + b| :: (a + b)[k].0 == Some("*"))
        <==> (exists k | 0 <= k < |a| :: a[k].0 == Some("*")) || (exists k | 0 <= k < |b| :: b[k].0 == Some("*"))
  {
    if k :| 0 <= k < |b| && b[k].0 == Some("*") {
      assert (a + b)[|a| + k] == b[k];
    }
    if k :| 0 <= k < |a| && a[k].0 == Some("*") {
      assert (a + b)[k] == a[k];
    }
  }

  lemma {:induction false} AllFilesIs(s: Stmt)
    ensures AllFiles(s) <==> ForAllFiles(s)
  {
    match s
    case End =>
    case Input(f, p, _, next) =>
      AllFilesIs(next);
      ForAllConcat([(f, p)], Inputs(next));
      assert Inputs(s) == [(f, p)] + Inputs(next);
      assert f == Some("*") ==> [(f, p)][0].0 == Some("*");
    case OnePage(body, next) =>
      AllFilesIs(body);
      AllFilesIs(next);
      ForAllConcat(Inputs(body), Inputs(next));
      assert Inputs(s) == Inputs(body) + Inputs(next);
    case _ =>
      AllFilesIs(s.next);
      assert Inputs(s) == Inputs(s.next) && AllFiles(s) == AllFiles(s.next);
  }

  lemma {:induction false} LastForAllIs(ss: seq<Section>, kind: bool)
    ensures LastForAll(ss, kind).None? ==> forall i: nat :: !TakesAll(ss, kind, i)
    ensures LastForAll(ss, kind).Some? ==>
              TakesAll(ss, kind, LastForAll(ss, kind).value)
              && forall i | LastForAll(ss, kind).value < i :: !TakesAll(ss, kind, i)
  {
    if ss != [] {
      var n := |ss| - 1;
      AllFilesIs(ss[n].body);
      LastForAllIs(ss[..n], kind);
      forall i: nat | i < n
        ensures TakesAll(ss, kind, i) <==> TakesAll(ss[..n], kind, i)
      {
      }
      forall i: nat | i > n
        ensures !TakesAll(ss, kind, i)
      {
      }
    }
  }

  lemma {:induction false} FirstOfKindIs(ss: seq<Section>, kind: bool, loadable: bool, i: nat)
    ensures FirstOfKind(ss, kind, loadable, i).None? ==>
              forall k | i <= k :: !(if loadable then LoadableOfKind(ss, kind, k) else OfKind(ss, kind, k))
    ensures FirstOfKind(ss, kind, loadable, i).Some? ==>
              var h := FirstOfKind(ss, kind, loadable, i).value;
              && i <= h && (if loadable then LoadableOfKind(ss, kind, h) else OfKind(ss, kind, h))
              && forall k | i <= k < h :: !(if loadable then LoadableOfKind(ss, kind, k) else OfKind(ss, kind, k))
    decreases |ss| - i
  {
    if i < |ss| {
      FirstOfKindIs(ss, kind, loadable, i + 1);
    }
  }

  /** At most one section is preferred. */
  lemma PreferenceIsUnique(ss: seq<Section>, kind: bool, g: nat, h: nat)
    requires Prefers(ss, kind, g) && Prefers(ss, kind, h)
    ensures g == h
  {
  }

  lemma KindHomeIs(ss: seq<Section>, kind: bool)
    ensures KindHome(ss, kind).Some? ==> Prefers(ss, kind, KindHome(ss, kind).value)
    ensures KindHome(ss, kind).None? ==> forall i: nat :: !OfKind(ss, kind, i)
  {
    LastForAllIs(ss, kind);
    FirstOfKindIs(ss, kind, true, 0);
    FirstOfKindIs(ss, kind, false, 0);
  }

  /** Orphans of a kind go to the preferred section of the kind, or of the other one if there is none. */
  ghost predicate IsHome(ss: seq<Section>, kind: bool, h: nat) {
    if exists i :: OfKind(ss, kind, i) then Prefers(ss, kind, h) else Prefers(ss, !kind, h)
  }

  lemma HomeIs(ss: seq<Section>, kind: bool)
    ensures Home(ss, kind).Some? ==> IsHome(ss, kind, Home(ss, kind).value)
    ensures Home(ss, kind).None? <==> ss == []
  {
    KindHomeIs(ss, kind);
    KindHomeIs(ss, !kind);
    if ss != [] {
      assert OfKind(ss, ss[0].datapart, 0);
    }
    if KindHome(ss, kind).Some? {
      PreferredExists(ss, kind, KindHome(ss, kind).value);
    }
    if KindHome(ss, !kind).Some? {
      PreferredExists(ss, !kind, KindHome(ss, !kind).value);
    }
  }

  lemma PreferredExists(ss: seq<Section>, kind: bool, h: nat)
    requires Prefers(ss, kind, h)
    ensures OfKind(ss, kind, h)
  {
  }

  // ---- the script with its orphans

  lemma {:induction false} AppendHas(s: Stmt, list: seq<nat>, p: nat)
    ensures p in PiecesOf(Append(s, list)) <==> p in PiecesOf(s) || p in list
    decreases s
  {
    if s.End? {
      assert PiecesOf(Append(s, list)) == list + PiecesOf(End) == list;
    } else {
      AppendHas(s.next, list, p);
      assert PiecesBy(Append(s, list)) == PiecesBy(s);
    }
  }

  lemma AppendAtHas(ss: seq<Section>, i: nat, list: seq<nat>, p: nat, k: nat)
    requires i < |ss| && k < |ss|
    ensures p in PiecesOf(AppendAt(ss, i, list)[k].body) <==> p in PiecesOf(ss[k].body) || (k == i && p in list)
  {
    AppendHas(ss[i].body, list, p);
  }

  /** The input section was not taken by any statement, and is of the kind: from counters 0 and 1, or
      from the data counters. */
  predicate IsOrphan(p: nat, pcs: seq<Piece>, gone: set<nat>, kind: bool) {
    p < |pcs| && p !in gone && kind == (pcs[p].seg >= 2)
  }

  lemma OrphansAre(p: nat, pcs: seq<Piece>, gone: set<nat>, kind: bool)
    ensures p in OrphansOf(kind, pcs, gone, 0) <==> IsOrphan(p, pcs, gone, kind)
  {
    OrphansExactly(kind, pcs, gone, 0);
  }

  lemma OrphanAdded(ss: seq<Section>, pcs: seq<Piece>, gone: set<nat>, strict: bool, p: nat, kind: bool)
    requires AddOrphans(ss, pcs, gone, strict).Some? && IsOrphan(p, pcs, gone, kind) && Home(ss, kind).Some?
    requires |AddOrphans(ss, pcs, gone, strict).value| == |ss|
    ensures p in PiecesOf(AddOrphans(ss, pcs, gone, strict).value[Home(ss, kind).value].body)
  {
    var text, data := OrphansOf(false, pcs, gone, 0), OrphansOf(true, pcs, gone, 0);
    var th, dh, h := Home(ss, false), Home(ss, true), Home(ss, kind).value;
    OrphansAre(p, pcs, gone, kind);
    if text == [] {
      AppendAtHas(ss, dh.value, data, p, h);
    } else if data == [] {
      AppendAtHas(ss, th.value, text, p, h);
    } else if text[0] < data[0] {
      AppendAtHas(ss, th.value, text, p, h);
      AppendAtHas(AppendAt(ss, th.value, text), dh.value, data, p, h);
    } else {
      AppendAtHas(ss, dh.value, data, p, h);
      AppendAtHas(AppendAt(ss, dh.value, data), th.value, text, p, h);
    }
  }

  /** No statement takes the input section. */
  predicate Unmatched(p: nat, ss: seq<Section>, pcs: seq<Piece>) {
    p < |pcs| && forall k | 0 <= k < |AllInputs(ss)| :: !Takes(AllInputs(ss)[k].0, AllInputs(ss)[k].1, pcs[p])
  }

  lemma UnmatchedIsOrphan(p: nat, ss: seq<Section>, pcs: seq<Piece>)
    requires (forall s <- ss :: Empty(s.body)) && p < |pcs|
    ensures IsOrphan(p, pcs, PlaceSections(ss, pcs, {}).1, pcs[p].seg >= 2) <==> Unmatched(p, ss, pcs)
  {
    SectionsFirstMatch(ss, pcs, {});
  }

  /** An input section that no statement takes is put into the home of its kind. */
  lemma OrphansGoHome(ss: seq<Section>, pcs: seq<Piece>, strict: bool, p: nat) returns (h: nat)
    requires (forall s <- ss :: Empty(s.body)) && PlaceAll(ss, pcs, strict).Some? && Unmatched(p, ss, pcs)
    ensures IsHome(PlaceSections(ss, pcs, {}).0, pcs[p].seg >= 2, h) && h < |PlaceAll(ss, pcs, strict).value|
    ensures p in PiecesOf(PlaceAll(ss, pcs, strict).value[h].body)
  {
    var (placed, gone) := PlaceSections(ss, pcs, {});
    var kind := pcs[p].seg >= 2;
    UnmatchedIsOrphan(p, ss, pcs);
    OrphansAre(p, pcs, gone, kind);
    HomeIs(placed, kind);
    AddKeepsNames(placed, pcs, gone, strict);
    h := Home(placed, kind).value;
    OrphanAdded(placed, pcs, gone, strict, p, kind);
  }

  /** Placement is refused exactly when there is an orphan and no section, or, with -Z, an orphan that
      is not empty. */
  lemma PlacementRefuses(ss: seq<Section>, pcs: seq<Piece>, strict: bool)
    requires forall s <- ss :: Empty(s.body)
    ensures PlaceAll(ss, pcs, strict).None? <==>
              exists p: nat :: Unmatched(p, ss, pcs) && (ss == [] || (strict && pcs[p].size != 0))
  {
    var (placed, gone) := PlaceSections(ss, pcs, {});
    PlaceKeepsNames(ss, pcs, {});
    HomeIs(placed, false);
    HomeIs(placed, true);
    forall p: nat | p < |pcs|
      ensures p !in gone <==> Unmatched(p, ss, pcs)
      ensures p !in gone ==> p in OrphansOf(pcs[p].seg >= 2, pcs, gone, 0)
    {
      UnmatchedIsOrphan(p, ss, pcs);
      OrphansAre(p, pcs, gone, pcs[p].seg >= 2);
    }
    SomeOrphan(pcs, gone);
  }

  lemma SomeOrphan(pcs: seq<Piece>, gone: set<nat>)
    ensures OrphansOf(false, pcs, gone, 0) != [] || OrphansOf(true, pcs, gone, 0) != [] ==>
              exists p: nat :: p < |pcs| && p !in gone
  {
    forall kind: bool | OrphansOf(kind, pcs, gone, 0) != []
      ensures exists p: nat :: p < |pcs| && p !in gone
    {
      OrphansAre(OrphansOf(kind, pcs, gone, 0)[0], pcs, gone, kind);
    }
  }
}
