/** Which statement takes which input section: the wildcard patterns of ld/script.c
    and the assignment of each input section to the first statement that matches
    it, or to the orphans. */
module Placement {
  import opened Prelude
  import opened ScriptSyntax
  import opened Occupancy
  import opened Disjointness

  // ---- patterns

  /** The matcher: '*' tries every suffix in turn. */
  predicate Glob(pat: string, s: string)
    decreases |pat|, |s|
  {
    if pat == [] then s == []
    else if pat[0] == '*' then Glob(pat[1..], s) || (s != [] && Glob(pat, s[1..]))
    else s != [] && (pat[0] == '?' || pat[0] == s[0]) && Glob(pat[1..], s[1..])
  }

  function Flat<T>(parts: seq<seq<T>>): seq<T> {
    if parts == [] then [] else parts[0] + Flat(parts[1..])
  }

  /** What one pattern character stands for. */
  predicate StandsFor(c: char, part: string) {
    c == '*' || (|part| == 1 && (c == '?' || part[0] == c))
  }

  /** The language of a pattern: the text splits into one part for each character. */
  ghost predicate InLanguage(pat: string, s: string) {
    exists parts: seq<string> :: Splits(pat, s, parts)
  }

  ghost predicate Splits(pat: string, s: string, parts: seq<string>) {
    |parts| == |pat| && Flat(parts) == s && forall i | 0 <= i < |pat| :: StandsFor(pat[i], parts[i])
  }

  lemma {:induction false} GlobAccepts(pat: string, s: string, parts: seq<string>)
    requires Splits(pat, s, parts)
    ensures Glob(pat, s)
    decreases |pat|, |s|
  {
    if pat != [] {
      var rest := Flat(parts[1..]);
      assert s == parts[0] + rest;
      assert forall i | 0 <= i < |pat[1..]| :: StandsFor(pat[1..][i], parts[1..][i]);
      if pat[0] == '*' && parts[0] != [] {
        var shorter := [parts[0][1..]] + parts[1..];
        assert shorter[1..] == parts[1..];
        assert s[1..] == parts[0][1..] + rest;
        GlobAccepts(pat, s[1..], shorter);
      } else {
        assert pat[0] == '*' ==> s == rest;
        assert pat[0] != '*' ==> s[1..] == rest;
        GlobAccepts(pat[1..], rest, parts[1..]);
      }
    }
  }

  lemma {:induction false} GlobSplits(pat: string, s: string) returns (parts: seq<string>)
    requires Glob(pat, s)
    ensures Splits(pat, s, parts)
    decreases |pat|, |s|
  {
    if pat == [] {
      parts := [];
    } else if pat[0] == '*' && Glob(pat[1..], s) {
      var rest := GlobSplits(pat[1..], s);
      parts := [""] + rest;
      assert parts[1..] == rest;
    } else if pat[0] == '*' {
      var rest := GlobSplits(pat, s[1..]);
      parts := [[s[0]] + rest[0]] + rest[1..];
      assert parts[1..] == rest[1..];
      assert s == [s[0]] + s[1..];
      assert Flat(rest) == rest[0] + Flat(rest[1..]);
    } else {
      var rest := GlobSplits(pat[1..], s[1..]);
      parts := [[s[0]]] + rest;
      assert parts[1..] == rest;
      assert s == [s[0]] + s[1..];
    }
  }

  /** The matcher decides exactly the language of the pattern. */
  lemma GlobDecides(pat: string, s: string)
    ensures Glob(pat, s) <==> InLanguage(pat, s)
  {
    if Glob(pat, s) {
      var parts := GlobSplits(pat, s);
    }
    if InLanguage(pat, s) {
      var parts :| Splits(pat, s, parts);
      GlobAccepts(pat, s, parts);
    }
  }

  // ---- input sections

  /** A loaded module's part of a location counter, or its common blocks there. */
  datatype Piece = Piece(filename: string, archentry: Option<string>, seg: nat, common: bool, size: nat)

  /** What follows the last slash. */
  function BaseName(s: string): string {
    if '/' !in s then s else BaseName(s[1..])
  }

  /** snprintf into a buffer of the given size. */
  function Cut(s: string, size: pos): string {
    if |s| < size then s else s[..size - 1]
  }

  predicate FileMatch(pat: string, pc: Piece) {
    match pc.archentry
    case None => Glob(pat, pc.filename) || Glob(pat, BaseName(pc.filename))
    case Some(entry) =>
      Glob(pat, Cut(pc.filename + ":" + entry, 512)) || Glob(pat, Cut(BaseName(pc.filename) + ":" + entry, 512))
  }

  predicate SecMatch(pat: string, pc: Piece) {
    if pc.common then pat == "COMMON" || Glob(pat, "COMMON" + Decimal(pc.seg))
    else (pat == ".text" && pc.seg == 0) || (pat == ".data" && pc.seg == 3) || Glob(pat, "LOC" + Decimal(pc.seg))
  }

  predicate Takes(filepat: Option<string>, secpats: seq<string>, pc: Piece) {
    filepat.Some? && FileMatch(filepat.value, pc) && exists pat <- secpats :: SecMatch(pat, pc)
  }

  // ---- what the patterns stand for

  lemma {:induction false} PlainGlob(pat: string, s: string)
    requires '*' !in pat && '?' !in pat
    ensures Glob(pat, s) <==> pat == s
    decreases |pat|
  {
    if pat != [] && s != [] {
      PlainGlob(pat[1..], s[1..]);
      assert pat == [pat[0]] + pat[1..] && s == [s[0]] + s[1..];
    }
  }

  function LastOf(s: string): int {
    if s == [] then 0 else s[|s| - 1] as int - '0' as int
  }

  lemma {:induction false} DecimalIsUnique(m: nat, n: nat)
    requires Decimal(m) == Decimal(n)
    ensures m == n
  {
    assert LastOf(Decimal(m)) == m % 10 && LastOf(Decimal(n)) == n % 10;
    DecimalLength(m);
    DecimalLength(n);
    if m >= 10 {
      assert Decimal(m)[..|Decimal(m)| - 1] == Decimal(m / 10) && Decimal(n)[..|Decimal(n)| - 1] == Decimal(n / 10);
      DecimalIsUnique(m / 10, n / 10);
    }
  }

  lemma {:induction false} DecimalLength(n: nat)
    ensures |Decimal(n)| >= 1 && (|Decimal(n)| == 1 <==> n < 10)
    ensures '*' !in Decimal(n) && '?' !in Decimal(n)
  {
    if n >= 10 {
      DecimalLength(n / 10);
    }
  }

  /** A prefix with a number names one counter. */
  lemma NumberedGlob(prefix: string, k: nat, seg: nat)
    requires '*' !in prefix && '?' !in prefix
    ensures Glob(prefix + Decimal(k), prefix + Decimal(seg)) <==> k == seg
  {
    DecimalLength(k);
    PlainGlob(prefix + Decimal(k), prefix + Decimal(seg));
    if prefix + Decimal(k) == prefix + Decimal(seg) {
      assert (prefix + Decimal(k))[|prefix|..] == Decimal(k) && (prefix + Decimal(seg))[|prefix|..] == Decimal(seg);
      DecimalIsUnique(k, seg);
    }
  }

  /** The parts of modules: .text is counter 0, .data is counter 3, LOCk is counter k. */
  lemma PatternsOfParts(pc: Piece, k: nat)
    requires !pc.common
    ensures SecMatch(".text", pc) <==> pc.seg == 0
    ensures SecMatch(".data", pc) <==> pc.seg == 3
    ensures SecMatch("LOC" + Decimal(k), pc) <==> pc.seg == k
    ensures !SecMatch("COMMON", pc)
  {
    NumberedGlob("LOC", k, pc.seg);
    var name := "LOC" + Decimal(pc.seg);
    assert name[0] == 'L';
    PlainGlob(".text", name);
    PlainGlob(".data", name);
    PlainGlob("COMMON", name);
    assert ("LOC" + Decimal(k))[0] == 'L';
  }

  /** The common blocks: COMMON is all of them, COMMONk those of counter k. */
  lemma PatternsOfCommons(pc: Piece, k: nat)
    requires pc.common
    ensures SecMatch("COMMON", pc) && (SecMatch("COMMON" + Decimal(k), pc) <==> pc.seg == k)
    ensures !SecMatch(".text", pc) && !SecMatch(".data", pc) && !SecMatch("LOC" + Decimal(k), pc)
  {
    NumberedGlob("COMMON", k, pc.seg);
    DecimalLength(k);
    var name := "COMMON" + Decimal(pc.seg);
    assert name[0] == 'C' && ("LOC" + Decimal(k))[0] == 'L';
    PlainGlob(".text", name);
    PlainGlob(".data", name);
    PlainGlob("LOC" + Decimal(k), name);
    assert |"COMMON" + Decimal(k)| > 6;
  }

  /** Any other pattern takes a part or a common block whose name it describes. */
  lemma PatternsDescribe(pat: string, pc: Piece)
    requires pat !in {".text", ".data", "COMMON"}
    ensures SecMatch(pat, pc) <==> InLanguage(pat, (if pc.common then "COMMON" else "LOC") + Decimal(pc.seg))
  {
    GlobDecides(pat, (if pc.common then "COMMON" else "LOC") + Decimal(pc.seg));
  }

  /** The base name begins behind the last slash. */
  lemma {:induction false} BaseNameIsLast(s: string) returns (k: nat)
    ensures k <= |s| && BaseName(s) == s[k..] && '/' !in s[k..] && (k > 0 ==> s[k - 1] == '/')
  {
    if '/' !in s {
      k := 0;
    } else {
      k := BaseNameIsLast(s[1..]);
      k := k + 1;
      assert s == [s[0]] + s[1..];
    }
  }

  lemma {:induction false} BaseNameIs(dir: string, base: string)
    requires '/' !in base && dir != [] && dir[|dir| - 1] == '/'
    ensures BaseName(dir + base) == base
    decreases |dir|
  {
    assert (dir + base)[1..] == dir[1..] + base;
    assert (dir + base)[|dir| - 1] == '/';
    if |dir| > 1 {
      BaseNameIs(dir[1..], base);
    } else {
      assert dir[1..] + base == base;
    }
  }

  /** For a member of an archive, a colon and its name follow. */
  function WithEntry(base: string, pc: Piece): string {
    if pc.archentry.Some? then base + ":" + pc.archentry.value else base
  }

  /** The pattern describes the file's name, with or without its directory. */
  ghost predicate Describes(pat: string, dir: string, base: string, pc: Piece) {
    && pc.filename == dir + base && (dir == [] || (dir[|dir| - 1] == '/' && '/' !in base))
    && InLanguage(pat, WithEntry(base, pc))
  }

  lemma FileMatchGlobs(pat: string, pc: Piece)
    requires pc.archentry.Some? ==> |pc.filename| + 1 + |pc.archentry.value| < 512
    ensures FileMatch(pat, pc) <==> Glob(pat, WithEntry(pc.filename, pc)) || Glob(pat, WithEntry(BaseName(pc.filename), pc))
  {
    var k := BaseNameIsLast(pc.filename);
  }

  lemma MatchIsDescribed(pat: string, pc: Piece)
    requires Glob(pat, WithEntry(pc.filename, pc)) || Glob(pat, WithEntry(BaseName(pc.filename), pc))
    ensures exists dir, base :: Describes(pat, dir, base, pc)
  {
    if Glob(pat, WithEntry(pc.filename, pc)) {
      GlobDecides(pat, WithEntry(pc.filename, pc));
      assert pc.filename == [] + pc.filename;
      assert Describes(pat, [], pc.filename, pc);
    } else {
      GlobDecides(pat, WithEntry(BaseName(pc.filename), pc));
      var k := BaseNameIsLast(pc.filename);
      assert pc.filename == pc.filename[..k] + BaseName(pc.filename);
      assert Describes(pat, pc.filename[..k], BaseName(pc.filename), pc);
    }
  }

  lemma DescribedMatches(pat: string, dir: string, base: string, pc: Piece)
    requires Describes(pat, dir, base, pc)
    ensures Glob(pat, WithEntry(pc.filename, pc)) || Glob(pat, WithEntry(BaseName(pc.filename), pc))
  {
    GlobDecides(pat, WithEntry(base, pc));
    if dir == [] {
      assert dir + base == base;
    } else {
      BaseNameIs(dir, base);
    }
  }

  /** A file matches exactly the patterns that describe it. */
  lemma FilePatterns(pat: string, pc: Piece)
    requires pc.archentry.Some? ==> |pc.filename| + 1 + |pc.archentry.value| < 512
    ensures FileMatch(pat, pc) <==> exists dir, base :: Describes(pat, dir, base, pc)
  {
    FileMatchGlobs(pat, pc);
    if FileMatch(pat, pc) {
      MatchIsDescribed(pat, pc);
    }
    if dir, base :| Describes(pat, dir, base, pc) {
      DescribedMatches(pat, dir, base, pc);
    }
  }

  // ---- assignment

  /** The input sections from index i on that a statement takes. */
  function Taken(filepat: Option<string>, secpats: seq<string>, pcs: seq<Piece>, gone: set<nat>, i: nat): seq<nat>
    decreases |pcs| - i
  {
    if i >= |pcs| then []
    else (if i !in gone && Takes(filepat, secpats, pcs[i]) then [i] else [])
         + Taken(filepat, secpats, pcs, gone, i + 1)
  }

  function Elements(s: seq<nat>): set<nat> {
    set x <- s
  }

  /** Give each free input section to the first statement of a list that takes it. */
  function Place(s: Stmt, pcs: seq<Piece>, gone: set<nat>): (Stmt, set<nat>) {
    if s.End? then (s, gone)
    else if s.Input? then
      var mine := Taken(s.filepat, s.secpats, pcs, gone, 0);
      var (rest, after) := Place(s.next, pcs, gone + Elements(mine));
      (Input(s.filepat, s.secpats, s.pieces + mine, rest), after)
    else if s.OnePage? then
      var (body, mid) := Place(s.body, pcs, gone);
      var (rest, after) := Place(s.next, pcs, mid);
      (OnePage(body, rest), after)
    else
      var (rest, after) := Place(s.next, pcs, gone);
      (Before(s, rest), after)
  }

  /** The same statement, with another tail. */
  function Before(s: Stmt, rest: Stmt): (r: Stmt)
    requires !s.End?
  {
    match s
    case Assign(kind, x, e, _) => Assign(kind, x, e, rest)
    case SetDot(e, _) => SetDot(e, rest)
    case Data(width, e, _) => Data(width, e, rest)
    case Fill(e, _) => Fill(e, rest)
    case Assert(e, message, _) => Assert(e, message, rest)
    case Input(f, p, pieces, _) => Input(f, p, pieces, rest)
    case OnePage(body, _) => OnePage(body, rest)
  }

  /** The input statements of a list, in script order, entering ONEPAGE blocks, and
      the input sections each one has. */
  function Inputs(s: Stmt): seq<(Option<string>, seq<string>)> {
    match s
    case End => []
    case Input(f, p, _, next) => [(f, p)] + Inputs(next)
    case OnePage(body, next) => Inputs(body) + Inputs(next)
    case _ => Inputs(s.next)
  }

  function Lists(s: Stmt): seq<seq<nat>> {
    match s
    case End => []
    case Input(_, _, pieces, next) => [pieces] + Lists(next)
    case OnePage(body, next) => Lists(body) + Lists(next)
    case _ => Lists(s.next)
  }

  /** As the parser leaves a list: nothing placed yet. */
  predicate Empty(s: Stmt) {
    match s
    case End => true
    case Input(_, _, pieces, next) => pieces == [] && Empty(next)
    case OnePage(body, next) => Empty(body) && Empty(next)
    case _ => Empty(s.next)
  }

  /** The first statement that takes the input section, or the number of them. */
  function FirstMatch(ins: seq<(Option<string>, seq<string>)>, pc: Piece): (k: nat)
    ensures k <= |ins|
    ensures k < |ins| ==> Takes(ins[k].0, ins[k].1, pc)
    ensures forall j | 0 <= j < k :: !Takes(ins[j].0, ins[j].1, pc)
  {
    if ins == [] then 0
    else if Takes(ins[0].0, ins[0].1, pc) then 0
    else 1 + FirstMatch(ins[1..], pc)
  }

  ghost predicate Increasing(s: seq<nat>) {
    forall i, j | 0 <= i < j < |s| :: s[i] < s[j]
  }

  /** Each list holds, in order, the free input sections whose first match it is. */
  ghost predicate PlacedBy(lists: seq<seq<nat>>, ins: seq<(Option<string>, seq<string>)>, pcs: seq<Piece>, gone: set<nat>) {
    && |lists| == |ins|
    && (forall k | 0 <= k < |lists| :: Increasing(lists[k]))
    && (forall k | 0 <= k < |lists| :: HoldsMatches(lists[k], k, ins, pcs, gone))
  }

  ghost predicate HoldsMatches(list: seq<nat>, k: nat, ins: seq<(Option<string>, seq<string>)>, pcs: seq<Piece>, gone: set<nat>) {
    forall p: nat :: p in list <==> p < |pcs| && p !in gone && FirstMatch(ins, pcs[p]) == k
  }

  lemma Prepends(i: nat, rest: seq<nat>)
    requires Increasing(rest) && forall p <- rest :: i < p
    ensures Increasing([i] + rest)
  {
    assert forall j | 0 <= j < |rest| :: rest[j] in rest;
  }

  lemma {:induction false} TakenExactly(f: Option<string>, secs: seq<string>, pcs: seq<Piece>, gone: set<nat>, i: nat)
    ensures Increasing(Taken(f, secs, pcs, gone, i))
    ensures forall p: nat :: p in Taken(f, secs, pcs, gone, i) <==>
              i <= p < |pcs| && p !in gone && Takes(f, secs, pcs[p])
    decreases |pcs| - i
  {
    if i < |pcs| {
      TakenExactly(f, secs, pcs, gone, i + 1);
      Prepends(i, Taken(f, secs, pcs, gone, i + 1));
    }
  }

  lemma {:induction false} FirstMatchConcat(a: seq<(Option<string>, seq<string>)>, b: seq<(Option<string>, seq<string>)>, pc: Piece)
    ensures FirstMatch(a + b, pc) == if FirstMatch(a, pc) < |a| then FirstMatch(a, pc) else |a| + FirstMatch(b, pc)
  {
    if a == [] {
      assert a + b == b;
    } else {
      assert (a + b)[1..] == a[1..] + b;
      FirstMatchConcat(a[1..], b, pc);
    }
  }

  /** Two lists of statements, one after the other. */
  lemma PlacedConcat(la: seq<seq<nat>>, lb: seq<seq<nat>>, a: seq<(Option<string>, seq<string>)>,
                     b: seq<(Option<string>, seq<string>)>, pcs: seq<Piece>, gone: set<nat>, mid: set<nat>)
    requires PlacedBy(la, a, pcs, gone) && PlacedBy(lb, b, pcs, mid)
    requires forall p: nat | p < |pcs| :: p in mid <==> p in gone || FirstMatch(a, pcs[p]) < |a|
    ensures PlacedBy(la + lb, a + b, pcs, gone)
  {
    var lists := la + lb;
    forall k | 0 <= k < |lists|
      ensures HoldsMatches(lists[k], k, a + b, pcs, gone)
    {
      forall p: nat
        ensures p in lists[k] <==> p < |pcs| && p !in gone && FirstMatch(a + b, pcs[p]) == k
      {
        if p < |pcs| {
          FirstMatchConcat(a, b, pcs[p]);
        }
        if k < |la| {
          assert HoldsMatches(la[k], k, a, pcs, gone) && lists[k] == la[k];
        } else {
          assert HoldsMatches(lb[k - |la|], k - |la|, b, pcs, mid) && lists[k] == lb[k - |la|];
        }
      }
    }
  }

  lemma {:induction false} PlaceKeepsInputs(s: Stmt, pcs: seq<Piece>, gone: set<nat>)
    ensures Inputs(Place(s, pcs, gone).0) == Inputs(s)
  {
    if s.Input? {
      PlaceKeepsInputs(s.next, pcs, gone + Elements(Taken(s.filepat, s.secpats, pcs, gone, 0)));
    } else if s.OnePage? {
      PlaceKeepsInputs(s.body, pcs, gone);
      PlaceKeepsInputs(s.next, pcs, Place(s.body, pcs, gone).1);
    } else if !s.End? {
      PlaceKeepsInputs(s.next, pcs, gone);
    }
  }

  /** First match: after placement, each statement's list is exactly the free input
      sections that no earlier statement takes and this one does, in order. */
  lemma {:induction false} PlaceFirstMatch(s: Stmt, pcs: seq<Piece>, gone: set<nat>)
    requires Empty(s)
    ensures PlacedBy(Lists(Place(s, pcs, gone).0), Inputs(s), pcs, gone)
    ensures forall p: nat | p < |pcs| ::
              p in Place(s, pcs, gone).1 <==> p in gone || FirstMatch(Inputs(s), pcs[p]) < |Inputs(s)|
    decreases s
  {
    if s.Input? {
      InputFirstMatch(s, pcs, gone);
    } else if s.OnePage? {
      PlaceFirstMatch(s.body, pcs, gone);
      var mid := Place(s.body, pcs, gone).1;
      PlaceFirstMatch(s.next, pcs, mid);
      PlacedConcat(Lists(Place(s.body, pcs, gone).0), Lists(Place(s.next, pcs, mid).0),
                   Inputs(s.body), Inputs(s.next), pcs, gone, mid);
      forall p: nat | p < |pcs|
        ensures p in Place(s, pcs, gone).1 <==> p in gone || FirstMatch(Inputs(s), pcs[p]) < |Inputs(s)|
      {
        FirstMatchConcat(Inputs(s.body), Inputs(s.next), pcs[p]);
      }
    } else if !s.End? {
      PlaceFirstMatch(s.next, pcs, gone);
    }
  }

  lemma {:induction false} InputFirstMatch(s: Stmt, pcs: seq<Piece>, gone: set<nat>)
    requires s.Input? && Empty(s)
    ensures PlacedBy(Lists(Place(s, pcs, gone).0), Inputs(s), pcs, gone)
    ensures forall p: nat | p < |pcs| ::
              p in Place(s, pcs, gone).1 <==> p in gone || FirstMatch(Inputs(s), pcs[p]) < |Inputs(s)|
    decreases s, 0
  {
    var mine := Taken(s.filepat, s.secpats, pcs, gone, 0);
    var mid := gone + Elements(mine);
    var one := [(s.filepat, s.secpats)];
    TakenExactly(s.filepat, s.secpats, pcs, gone, 0);
    PlaceFirstMatch(s.next, pcs, mid);
    assert one[1..] == [];
    assert PlacedBy([mine], one, pcs, gone);
    PlacedConcat([mine], Lists(Place(s.next, pcs, mid).0), one, Inputs(s.next), pcs, gone, mid);
    assert [] + mine == mine;
    forall p: nat | p < |pcs|
      ensures p in Place(s, pcs, gone).1 <==> p in gone || FirstMatch(Inputs(s), pcs[p]) < |Inputs(s)|
    {
      FirstMatchConcat(one, Inputs(s.next), pcs[p]);
    }
  }

  // ---- the whole script

  function PlaceSections(ss: seq<Section>, pcs: seq<Piece>, gone: set<nat>): (seq<Section>, set<nat>) {
    if ss == [] then ([], gone)
    else
      var (body, mid) := Place(ss[0].body, pcs, gone);
      var (rest, after) := PlaceSections(ss[1..], pcs, mid);
      ([ss[0].(body := body)] + rest, after)
  }

  function AllInputs(ss: seq<Section>): seq<(Option<string>, seq<string>)> {
    if ss == [] then [] else Inputs(ss[0].body) + AllInputs(ss[1..])
  }

  function AllLists(ss: seq<Section>): seq<seq<nat>> {
    if ss == [] then [] else Lists(ss[0].body) + AllLists(ss[1..])
  }

  /** First match over the whole script: the statements of all sections, in order. */
  lemma {:induction false} SectionsFirstMatch(ss: seq<Section>, pcs: seq<Piece>, gone: set<nat>)
    requires forall s <- ss :: Empty(s.body)
    ensures PlacedBy(AllLists(PlaceSections(ss, pcs, gone).0), AllInputs(ss), pcs, gone)
    ensures forall p: nat | p < |pcs| ::
              p in PlaceSections(ss, pcs, gone).1 <==> p in gone || FirstMatch(AllInputs(ss), pcs[p]) < |AllInputs(ss)|
  {
    if ss != [] {
      var (body, mid) := Place(ss[0].body, pcs, gone);
      var rest := PlaceSections(ss[1..], pcs, mid).0;
      PlaceFirstMatch(ss[0].body, pcs, gone);
      SectionsFirstMatch(ss[1..], pcs, mid);
      PlacedConcat(Lists(body), AllLists(rest), Inputs(ss[0].body), AllInputs(ss[1..]), pcs, gone, mid);
      assert PlaceSections(ss, pcs, gone).0[1..] == rest;
      forall p: nat | p < |pcs|
        ensures p in PlaceSections(ss, pcs, gone).1 <==>
                p in gone || FirstMatch(AllInputs(ss), pcs[p]) < |AllInputs(ss)|
      {
        FirstMatchConcat(Inputs(ss[0].body), AllInputs(ss[1..]), pcs[p]);
      }
    }
  }

  // ---- orphans

  predicate AllFiles(s: Stmt) {
    match s
    case End => false
    case Input(f, _, _, next) => f == Some("*") || AllFiles(next)
    case OnePage(body, next) => AllFiles(body) || AllFiles(next)
    case _ => AllFiles(s.next)
  }

  /** The last section of the kind that takes input from all files. */
  function LastForAll(ss: seq<Section>, kind: bool): Option<nat> {
    if ss == [] then None
    else
      var n := |ss| - 1;
      if ss[n].datapart == kind && !ss[n].noload && AllFiles(ss[n].body) then Some(n)
      else LastForAll(ss[..n], kind)
  }

  /** The first section of the kind, from index i on; loadable if asked for. */
  function FirstOfKind(ss: seq<Section>, kind: bool, loadable: bool, i: nat): Option<nat>
    decreases |ss| - i
  {
    if i >= |ss| then None
    else if ss[i].datapart == kind && (loadable ==> !ss[i].noload) then Some(i)
    else FirstOfKind(ss, kind, loadable, i + 1)
  }

  function Or(a: Option<nat>, b: Option<nat>): Option<nat> {
    if a.Some? then a else b
  }

  function KindHome(ss: seq<Section>, kind: bool): Option<nat> {
    Or(LastForAll(ss, kind), Or(FirstOfKind(ss, kind, true, 0), FirstOfKind(ss, kind, false, 0)))
  }

  /** Where orphans of a kind go. */
  function Home(ss: seq<Section>, kind: bool): (h: Option<nat>)
    ensures h.Some? ==> h.value < |ss|
  {
    HomeInRange(ss, kind);
    HomeInRange(ss, !kind);
    Or(KindHome(ss, kind), KindHome(ss, !kind))
  }

  lemma HomeInRange(ss: seq<Section>, kind: bool)
    ensures KindHome(ss, kind).Some? ==> KindHome(ss, kind).value < |ss|
  {
    LastInRange(ss, kind);
    FirstInRange(ss, kind, true, 0);
    FirstInRange(ss, kind, false, 0);
  }

  lemma LastInRange(ss: seq<Section>, kind: bool)
    ensures LastForAll(ss, kind).Some? ==> LastForAll(ss, kind).value < |ss|
  {
  }

  lemma FirstInRange(ss: seq<Section>, kind: bool, loadable: bool, i: nat)
    ensures FirstOfKind(ss, kind, loadable, i).Some? ==> FirstOfKind(ss, kind, loadable, i).value < |ss|
    decreases |ss| - i
  {
  }

  /** The input sections of a kind, from index i on, that nothing took. */
  function OrphansOf(kind: bool, pcs: seq<Piece>, gone: set<nat>, i: nat): seq<nat>
    decreases |pcs| - i
  {
    if i >= |pcs| then []
    else (if i !in gone && (pcs[i].seg >= 2) == kind then [i] else []) + OrphansOf(kind, pcs, gone, i + 1)
  }

  function Append(s: Stmt, list: seq<nat>): Stmt {
    if s.End? then Input(None, [], list, End) else Before(s, Append(s.next, list))
  }

  function AppendAt(ss: seq<Section>, i: nat, list: seq<nat>): seq<Section>
    requires i < |ss|
  {
    ss[i := ss[i].(body := Append(ss[i].body, list))]
  }

  /** Orphans after placement, or None where the linker stops: no section to put
      them in, or -Z and an orphan that is not empty. */
  function AddOrphans(ss: seq<Section>, pcs: seq<Piece>, gone: set<nat>, strict: bool): Option<seq<Section>> {
    var text, data := OrphansOf(false, pcs, gone, 0), OrphansOf(true, pcs, gone, 0);
    var th, dh := Home(ss, false), Home(ss, true);
    if (text != [] || data != []) && (ss == [] || th.None? || dh.None?) then None
    else if strict && exists p | 0 <= p < |pcs| && p !in gone :: pcs[p].size != 0 then None
    else if text == [] && data == [] then Some(ss)
    else if text == [] then Some(AppendAt(ss, dh.value, data))
    else if data == [] then Some(AppendAt(ss, th.value, text))
    else if text[0] < data[0] then Some(AppendAt(AppendAt(ss, th.value, text), dh.value, data))
    else Some(AppendAt(AppendAt(ss, dh.value, data), th.value, text))
  }

  // ---- every input section is placed exactly once

  lemma {:induction false} FlatConcat<T>(a: seq<seq<T>>, b: seq<seq<T>>)
    ensures Flat(a + b) == Flat(a) + Flat(b)
  {
    if a == [] {
      assert a + b == b;
    } else {
      assert (a + b)[1..] == a[1..] + b;
      FlatConcat(a[1..], b);
    }
  }

  lemma {:induction false} PiecesAreLists(s: Stmt)
    ensures PiecesOf(s) == Flat<nat>(Lists(s))
    decreases s
  {
    if !s.End? {
      PiecesAreLists(s.next);
      if s.Input? {
        FlatConcat([s.pieces], Lists(s.next));
        assert [s.pieces][1..] == [];
        assert Flat([s.pieces]) == s.pieces;
      } else if s.OnePage? {
        PiecesAreLists(s.body);
        FlatConcat(Lists(s.body), Lists(s.next));
      }
    }
  }

  lemma {:induction false} AllPiecesAreLists(ss: seq<Section>)
    ensures AllPieces(ss) == Flat<nat>(AllLists(ss))
  {
    if ss != [] {
      PiecesAreLists(ss[0].body);
      AllPiecesAreLists(ss[1..]);
      FlatConcat(Lists(ss[0].body), AllLists(ss[1..]));
    }
  }

  lemma {:induction false} IncreasingCounts(s: seq<nat>, p: nat)
    requires Increasing(s)
    ensures multiset(s)[p] == if p in s then 1 else 0
  {
    if s != [] {
      IncreasingCounts(s[1..], p);
      assert s == [s[0]] + s[1..];
    }
  }

  /** A value that only list k holds is counted once in all the lists together. */
  lemma {:induction false} FlatCounts(lists: seq<seq<nat>>, p: nat, k: int)
    requires forall j | 0 <= j < |lists| :: Increasing(lists[j]) && (p in lists[j] <==> j == k)
    ensures multiset(Flat<nat>(lists))[p] == if 0 <= k < |lists| then 1 else 0
  {
    if lists != [] {
      IncreasingCounts(lists[0], p);
      FlatCounts(lists[1..], p, k - 1);
    }
  }

  lemma {:induction false} AppendPieces(s: Stmt, list: seq<nat>)
    ensures PiecesOf(Append(s, list)) == PiecesOf(s) + list
  {
    if !s.End? {
      AppendPieces(s.next, list);
    }
  }

  lemma {:induction false} AppendCounts(ss: seq<Section>, i: nat, list: seq<nat>)
    requires i < |ss|
    ensures multiset(AllPieces(AppendAt(ss, i, list))) == multiset(AllPieces(ss)) + multiset(list)
  {
    var after := AppendAt(ss, i, list);
    if i == 0 {
      AppendPieces(ss[0].body, list);
      assert after[1..] == ss[1..];
    } else {
      assert after[1..] == AppendAt(ss[1..], i - 1, list);
      AppendCounts(ss[1..], i - 1, list);
    }
  }

  lemma {:induction false} OrphansExactly(kind: bool, pcs: seq<Piece>, gone: set<nat>, i: nat)
    ensures Increasing(OrphansOf(kind, pcs, gone, i))
    ensures forall p: nat :: p in OrphansOf(kind, pcs, gone, i) <==>
              i <= p < |pcs| && p !in gone && (pcs[p].seg >= 2) == kind
    decreases |pcs| - i
  {
    if i < |pcs| {
      OrphansExactly(kind, pcs, gone, i + 1);
      var rest := OrphansOf(kind, pcs, gone, i + 1);
      assert forall j | 0 <= j < |rest| :: rest[j] in rest;
    }
  }

  lemma OrphanCounts(ss: seq<Section>, pcs: seq<Piece>, gone: set<nat>, strict: bool)
    requires AddOrphans(ss, pcs, gone, strict).Some?
    ensures multiset(AllPieces(AddOrphans(ss, pcs, gone, strict).value))
            == multiset(AllPieces(ss)) + multiset(OrphansOf(false, pcs, gone, 0)) + multiset(OrphansOf(true, pcs, gone, 0))
  {
    var text, data := OrphansOf(false, pcs, gone, 0), OrphansOf(true, pcs, gone, 0);
    var th, dh := Home(ss, false), Home(ss, true);
    if text == [] && data == [] {
    } else if text == [] {
      AppendCounts(ss, dh.value, data);
    } else if data == [] {
      AppendCounts(ss, th.value, text);
    } else if text[0] < data[0] {
      AppendTwoCounts(ss, th.value, text, dh.value, data);
    } else {
      AppendTwoCounts(ss, dh.value, data, th.value, text);
    }
  }

  lemma AppendTwoCounts(ss: seq<Section>, i: nat, a: seq<nat>, j: nat, b: seq<nat>)
    requires i < |ss| && j < |ss|
    ensures multiset(AllPieces(AppendAt(AppendAt(ss, i, a), j, b))) == multiset(AllPieces(ss)) + multiset(a) + multiset(b)
  {
    AppendCounts(ss, i, a);
    AppendCounts(AppendAt(ss, i, a), j, b);
  }

  /** The sections with every input section given to a statement. */
  function PlaceAll(ss: seq<Section>, pcs: seq<Piece>, strict: bool): Option<seq<Section>> {
    var (placed, gone) := PlaceSections(ss, pcs, {});
    AddOrphans(placed, pcs, gone, strict)
  }

  /** Partition: after placement and orphans, every input section is in the script's
      lists exactly once, and nothing else is. */
  lemma EveryPiecePlacedOnce(ss: seq<Section>, pcs: seq<Piece>, strict: bool)
    requires (forall s <- ss :: Empty(s.body)) && PlaceAll(ss, pcs, strict).Some?
    ensures forall p: nat :: multiset(AllPieces(PlaceAll(ss, pcs, strict).value))[p] == if p < |pcs| then 1 else 0
  {
    var (placed, gone) := PlaceSections(ss, pcs, {});
    var final := PlaceAll(ss, pcs, strict).value;
    OrphanCounts(placed, pcs, gone, strict);
    forall p: nat
      ensures multiset(AllPieces(final))[p] == if p < |pcs| then 1 else 0
    {
      PlacedOnce(ss, placed, pcs, gone, final, p);
    }
  }

  lemma SumCounts(a: multiset<nat>, b: multiset<nat>, c: multiset<nat>, p: nat)
    ensures (a + b + c)[p] == a[p] + b[p] + c[p]
  {
  }

  lemma PlacedOnce(ss: seq<Section>, placed: seq<Section>, pcs: seq<Piece>, gone: set<nat>, final: seq<Section>, p: nat)
    requires (forall s <- ss :: Empty(s.body)) && (placed, gone) == PlaceSections(ss, pcs, {})
    requires multiset(AllPieces(final))
             == multiset(AllPieces(placed)) + multiset(OrphansOf(false, pcs, gone, 0)) + multiset(OrphansOf(true, pcs, gone, 0))
    ensures multiset(AllPieces(final))[p] == if p < |pcs| then 1 else 0
  {
    AllPiecesAreLists(placed);
    var a, b, c := multiset(AllPieces(placed)), multiset(OrphansOf(false, pcs, gone, 0)), multiset(OrphansOf(true, pcs, gone, 0));
    SumCounts(a, b, c, p);
    CountedInScript(ss, placed, pcs, gone, p);
  }

  lemma CountedInScript(ss: seq<Section>, placed: seq<Section>, pcs: seq<Piece>, gone: set<nat>, p: nat)
    requires (forall s <- ss :: Empty(s.body)) && (placed, gone) == PlaceSections(ss, pcs, {})
    ensures CountOf(AllLists(placed), pcs, gone, p) == if p < |pcs| then 1 else 0
  {
    SectionsFirstMatch(ss, pcs, {});
    CountedOnce(AllLists(placed), AllInputs(ss), pcs, gone, p);
  }

  lemma CountedOnce(lists: seq<seq<nat>>, ins: seq<(Option<string>, seq<string>)>, pcs: seq<Piece>, gone: set<nat>, p: nat)
    requires PlacedBy(lists, ins, pcs, {})
    requires p < |pcs| ==> (p in gone <==> FirstMatch(ins, pcs[p]) < |ins|)
    ensures CountOf(lists, pcs, gone, p) == if p < |pcs| then 1 else 0
  {
    var k := MatchIndex(lists, ins, pcs, gone, p);
    CountAt(lists, pcs, gone, p, k);
  }

  /** How often an input section is in the lists and among the orphans. */
  function CountOf(lists: seq<seq<nat>>, pcs: seq<Piece>, gone: set<nat>, p: nat): nat {
    multiset(Flat<nat>(lists))[p] + multiset(OrphansOf(false, pcs, gone, 0))[p] + multiset(OrphansOf(true, pcs, gone, 0))[p]
  }

  lemma CountAt(lists: seq<seq<nat>>, pcs: seq<Piece>, gone: set<nat>, p: nat, k: int)
    requires forall j | 0 <= j < |lists| :: Increasing(lists[j]) && (p in lists[j] <==> j == k)
    requires 0 <= k < |lists| <==> p < |pcs| && p in gone
    ensures CountOf(lists, pcs, gone, p) == if p < |pcs| then 1 else 0
  {
    FlatCounts(lists, p, k);
    OrphanCount(pcs, gone, p);
  }

  /** The one list that holds an input section, if any does. */
  lemma MatchIndex(lists: seq<seq<nat>>, ins: seq<(Option<string>, seq<string>)>, pcs: seq<Piece>, gone: set<nat>, p: nat)
    returns (k: int)
    requires PlacedBy(lists, ins, pcs, {})
    requires p < |pcs| ==> (p in gone <==> FirstMatch(ins, pcs[p]) < |ins|)
    ensures forall j | 0 <= j < |lists| :: Increasing(lists[j]) && (p in lists[j] <==> j == k)
    ensures 0 <= k < |lists| <==> p < |pcs| && p in gone
  {
    k := if p < |pcs| then FirstMatch(ins, pcs[p]) else -1;
    forall j | 0 <= j < |lists|
      ensures p in lists[j] <==> j == k
    {
      assert HoldsMatches(lists[j], j, ins, pcs, {});
    }
  }

  lemma OrphanCount(pcs: seq<Piece>, gone: set<nat>, p: nat)
    ensures multiset(OrphansOf(false, pcs, gone, 0))[p] + multiset(OrphansOf(true, pcs, gone, 0))[p]
            == if p < |pcs| && p !in gone then 1 else 0
  {
    OrphansExactly(false, pcs, gone, 0);
    OrphansExactly(true, pcs, gone, 0);
    IncreasingCounts(OrphansOf(false, pcs, gone, 0), p);
    IncreasingCounts(OrphansOf(true, pcs, gone, 0), p);
  }

  lemma OnceIsDistinct(s: seq<nat>, n: nat)
    requires forall p: nat :: multiset(s)[p] == if p < n then 1 else 0
    ensures Distinct(s) && forall p: nat :: p in s <==> p < n
  {
    forall i, j | 0 <= i < j < |s|
      ensures s[i] != s[j]
    {
      assert s == s[..j] + s[j..];
      assert s[..j][i] == s[i] && s[j..][0] == s[j];
      assert s[i] in multiset(s[..j]) && s[j] in multiset(s[j..]);
      assert multiset(s)[s[i]] == multiset(s[..j])[s[i]] + multiset(s[j..])[s[i]];
    }
    forall p: nat
      ensures p in s <==> p < n
    {
      assert p in s <==> multiset(s)[p] > 0;
    }
  }

  // ---- what the layout needs of a placed script

  lemma {:induction false} PlaceKeepsNames(ss: seq<Section>, pcs: seq<Piece>, gone: set<nat>)
    ensures |PlaceSections(ss, pcs, gone).0| == |ss|
    ensures forall i | 0 <= i < |ss| :: PlaceSections(ss, pcs, gone).0[i].name == ss[i].name
  {
    if ss != [] {
      PlaceKeepsNames(ss[1..], pcs, Place(ss[0].body, pcs, gone).1);
    }
  }

  lemma AddKeepsNames(ss: seq<Section>, pcs: seq<Piece>, gone: set<nat>, strict: bool)
    requires AddOrphans(ss, pcs, gone, strict).Some?
    ensures |AddOrphans(ss, pcs, gone, strict).value| == |ss|
    ensures forall i | 0 <= i < |ss| :: AddOrphans(ss, pcs, gone, strict).value[i].name == ss[i].name
  {
  }

  lemma PlaceAllKeepsNames(ss: seq<Section>, pcs: seq<Piece>, strict: bool)
    requires PlaceAll(ss, pcs, strict).Some?
    ensures |PlaceAll(ss, pcs, strict).value| == |ss|
    ensures forall i | 0 <= i < |ss| :: PlaceAll(ss, pcs, strict).value[i].name == ss[i].name
  {
    var (placed, gone) := PlaceSections(ss, pcs, {});
    PlaceKeepsNames(ss, pcs, {});
    AddKeepsNames(placed, pcs, gone, strict);
  }

  /** A script whose sections have different names can be laid out once its input
      sections are placed. */
  lemma PlacedScriptIsPlaceable(ss: seq<Section>, pcs: seq<Piece>, strict: bool)
    requires (forall s <- ss :: Empty(s.body)) && UniqueNames(ss) && PlaceAll(ss, pcs, strict).Some?
    ensures Placeable(PlaceAll(ss, pcs, strict).value)
    ensures forall p: nat :: p in AllPieces(PlaceAll(ss, pcs, strict).value) <==> p < |pcs|
  {
    PlaceAllKeepsNames(ss, pcs, strict);
    EveryPiecePlacedOnce(ss, pcs, strict);
    OnceIsDistinct(AllPieces(PlaceAll(ss, pcs, strict).value), |pcs|);
  }

  // ---- as the linker runs it

  /** `gone` are the input sections that already have an output section. */
  class Placer {
    const pcs: seq<Piece>
    var gone: set<nat>

    constructor (pcs: seq<Piece>)
      ensures this.pcs == pcs && gone == {}
    {
      this.pcs := pcs;
      gone := {};
    }

    method Matches(filepat: Option<string>, secpats: seq<string>, pc: Piece) returns (b: bool)
      ensures b == Takes(filepat, secpats, pc)
    {
      if filepat.None? || !FileMatch(filepat.value, pc) {
        return false;
      }
      var j := 0;
      while j < |secpats|
        invariant 0 <= j <= |secpats|
        invariant forall k | 0 <= k < j :: !SecMatch(secpats[k], pc)
      {
        if SecMatch(secpats[j], pc) {
          return true;
        }
        j := j + 1;
      }
      return false;
    }

    lemma TakeJoins(mine: seq<nat>, i: nat, rest: seq<nat>)
      ensures mine + ([i] + rest) == (mine + [i]) + rest && Elements(mine + [i]) == Elements(mine) + {i}
    {
    }

    method TakeMatching(filepat: Option<string>, secpats: seq<string>) returns (mine: seq<nat>)
      modifies this
      ensures mine == Taken(filepat, secpats, pcs, old(gone), 0)
      ensures gone == old(gone) + Elements(mine)
    {
      mine := [];
      var i := 0;
      while i < |pcs|
        invariant 0 <= i <= |pcs|
        invariant mine + Taken(filepat, secpats, pcs, old(gone), i) == Taken(filepat, secpats, pcs, old(gone), 0)
        invariant gone == old(gone) + Elements(mine) && forall p <- mine :: p < i
      {
        var m := Matches(filepat, secpats, pcs[i]);
        assert i in gone <==> i in old(gone);
        if i !in gone && m {
          TakeJoins(mine, i, Taken(filepat, secpats, pcs, old(gone), i + 1));
          mine, gone := mine + [i], gone + {i};
        } else {
          assert Taken(filepat, secpats, pcs, old(gone), i) == Taken(filepat, secpats, pcs, old(gone), i + 1);
        }
        i := i + 1;
      }
      assert mine + [] == mine;
    }

    method AssignList(s: Stmt) returns (r: Stmt)
      modifies this
      ensures (r, gone) == Place(s, pcs, old(gone))
      decreases s
    {
      if s.End? {
        return s;
      }
      if s.Input? {
        var mine := TakeMatching(s.filepat, s.secpats);
        var rest := AssignList(s.next);
        return Input(s.filepat, s.secpats, s.pieces + mine, rest);
      }
      if s.OnePage? {
        var body := AssignList(s.body);
        var rest := AssignList(s.next);
        return OnePage(body, rest);
      }
      var rest := AssignList(s.next);
      return Before(s, rest);
    }

    method AssignSections(ss: seq<Section>) returns (out: seq<Section>)
      modifies this
      ensures (out, gone) == PlaceSections(ss, pcs, old(gone))
    {
      out := [];
      var i := 0;
      while i < |ss|
        invariant 0 <= i <= |ss|
        invariant out + PlaceSections(ss[i..], pcs, gone).0 == PlaceSections(ss, pcs, old(gone)).0
        invariant PlaceSections(ss[i..], pcs, gone).1 == PlaceSections(ss, pcs, old(gone)).1
      {
        assert ss[i..][0] == ss[i] && ss[i..][1..] == ss[i + 1..];
        var body := AssignList(ss[i].body);
        ghost var rest := PlaceSections(ss[i + 1..], pcs, gone).0;
        assert out + ([ss[i].(body := body)] + rest) == out + [ss[i].(body := body)] + rest;
        out := out + [ss[i].(body := body)];
        i := i + 1;
      }
      assert ss[i..] == [] && out + [] == out;
    }
  }
}
