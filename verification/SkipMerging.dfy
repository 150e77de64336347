/** Adding skips up (as/genobj.c:40-47, 84-105) and storing the sum in 16 bits: where
    the linker puts each request, compared with the assembler's location counters. */
module SkipMerging {
  import opened Prelude
  import opened AsmExpression
  import opened ObjectCode
  import opened ObjectWriter

  /** The current segment and all location counters. */
  datatype Counters = Counters(cur: nat, lcs: seq<int>)
  {
    predicate Valid() {
      |lcs| == 16 && cur < 16
    }

    function Lc(): int
      requires Valid()
    {
      lcs[cur]
    }

    function Add(n: int): (c: Counters)
      requires Valid()
      ensures c.Valid()
    {
      Counters(cur, lcs[cur := lcs[cur] + n])
    }

    function Move(r: Request): (c: Counters)
      requires Valid() && Allowed(r)
      ensures c.Valid()
    {
      match r
      case Byte(_) => Add(1)
      case Skip(n) => Add(n)
      case SetSeg(s) => Counters(s, lcs)
      case Reloc(size, _, _, _) => Add(size)
    }
  }

  const START := Counters(0, seq(16, _ => 0))

  predicate AllAllowed(rs: seq<Request>) {
    forall r <- rs :: Allowed(r)
  }

  /** Where a request that is not a skip is made; None marks the end of the stream. */
  datatype Spot = Spot(seg: nat, lc: int, what: Option<Request>)

  function SpotOf(c: Counters, r: Request): seq<Spot>
    requires c.Valid()
  {
    if r.Skip? then [] else [Spot(c.cur, c.Lc(), Some(Normal(r)))]
  }

  function Spots(c: Counters, rs: seq<Request>): seq<Spot>
    requires c.Valid() && AllAllowed(rs)
    decreases |rs|
  {
    if rs == [] then [Spot(c.cur, c.Lc(), None)] else SpotOf(c, rs[0]) + Spots(c.Move(rs[0]), rs[1..])
  }

  /** The requests that the linker reads, when `pending` is still to be skipped. */
  function Merged(pending: int, rs: seq<Request>): seq<Request>
    decreases |rs|
  {
    if rs == [] then SkipOps(pending % WORD)
    else if rs[0].Skip? then Merged(pending + rs[0].n, rs[1..])
    else SkipOps(pending % WORD) + [Normal(rs[0])] + Merged(0, rs[1..])
  }

  lemma {:induction false} LogIsMerged(log: Log, rs: seq<Request>)
    ensures log.PushAll(rs).Settled() == log.done + Merged(log.pending, rs)
    decreases |rs|
  {
    if rs != [] {
      var next := log.Push(rs[0]);
      LogIsMerged(next, rs[1..]);
      if !rs[0].Skip? {
        Regroup(log.done, SkipOps(log.pending % WORD), [Normal(rs[0])], Merged(0, rs[1..]));
      }
    }
  }

  lemma Regroup(a: seq<Request>, b: seq<Request>, c: seq<Request>, d: seq<Request>)
    ensures a + b + c + d == a + (b + c + d)
  {
  }

  lemma NormalIsAllowed(r: Request)
    requires Allowed(r) && !r.Skip?
    ensures Allowed(Normal(r)) && Normal(Normal(r)) == Normal(r)
    ensures !Normal(r).Skip?
  {
    if r.Reloc? && r.target.InSegment? {
      assert Range(r.size) <= WORD;
    }
  }

  lemma {:induction false} MergedIsAllowed(pending: int, rs: seq<Request>)
    requires AllAllowed(rs)
    ensures AllAllowed(Merged(pending, rs))
    decreases |rs|
  {
    if rs != [] {
      MergedIsAllowed(if rs[0].Skip? then pending + rs[0].n else 0, rs[1..]);
      if !rs[0].Skip? {
        NormalIsAllowed(rs[0]);
      }
    }
  }

  /** Every run of skips adds up to a 16-bit count. */
  predicate RunsFit(pending: int, rs: seq<Request>)
    decreases |rs|
  {
    if rs == [] then 0 <= pending < WORD
    else if rs[0].Skip? then RunsFit(pending + rs[0].n, rs[1..])
    else 0 <= pending < WORD && RunsFit(0, rs[1..])
  }

  lemma SpotsOfSkip(c: Counters, n: int, rs: seq<Request>)
    requires c.Valid() && AllAllowed(rs)
    ensures AllAllowed(SkipOps(n) + rs) && Spots(c, SkipOps(n) + rs) == Spots(c.Add(n), rs)
  {
    if n == 0 {
      assert SkipOps(n) + rs == rs;
      assert c.Add(0) == c;
    } else {
      assert (SkipOps(n) + rs)[1..] == rs;
    }
  }

  /** After a settled skip: the request, then the rest. */
  lemma SpotsOfStep(c: Counters, n: int, r: Request, rs: seq<Request>)
    requires c.Valid() && Allowed(r) && !r.Skip? && AllAllowed(rs)
    ensures AllAllowed(SkipOps(n) + [Normal(r)] + rs)
    ensures Spots(c, SkipOps(n) + [Normal(r)] + rs) == SpotOf(c.Add(n), r) + Spots(c.Add(n).Move(r), rs)
  {
    NormalIsAllowed(r);
    assert c.Add(n).Move(Normal(r)) == c.Add(n).Move(r);
    var tail := [Normal(r)] + rs;
    assert SkipOps(n) + [Normal(r)] + rs == SkipOps(n) + tail;
    SpotsOfSkip(c, n, tail);
    assert tail[1..] == rs;
  }

  lemma SameHead(x: Spot, y: Spot, a: seq<Spot>, b: seq<Spot>)
    ensures [x] + a == [y] + b <==> x == y && a == b
  {
    if [x] + a == [y] + b {
      assert x == ([x] + a)[0] && y == ([y] + b)[0];
      assert a == ([x] + a)[1..] && b == ([y] + b)[1..];
    }
  }

  /** Requests land at the assembler's location counters exactly when all runs fit. */
  lemma {:induction false} MergingIsExact(c: Counters, pending: int, rs: seq<Request>)
    requires c.Valid() && AllAllowed(rs)
    ensures AllAllowed(Merged(pending, rs))
    ensures Spots(c, Merged(pending, rs)) == Spots(c.Add(pending), rs) <==> RunsFit(pending, rs)
    decreases |rs|
  {
    MergedIsAllowed(pending, rs);
    var n := pending % WORD;
    if rs == [] {
      SpotsOfSkip(c, n, []);
      assert SkipOps(n) + [] == SkipOps(n);
    } else if rs[0].Skip? {
      MergingIsExact(c, pending + rs[0].n, rs[1..]);
      assert c.Add(pending).Move(rs[0]) == c.Add(pending + rs[0].n);
    } else {
      MergedIsAllowed(0, rs[1..]);
      SpotsOfStep(c, n, rs[0], Merged(0, rs[1..]));
      SameHead(SpotOf(c.Add(n), rs[0])[0], SpotOf(c.Add(pending), rs[0])[0],
               Spots(c.Add(n).Move(rs[0]), Merged(0, rs[1..])), Spots(c.Add(pending).Move(rs[0]), rs[1..]));
      if 0 <= pending < WORD {
        var d := c.Add(pending).Move(rs[0]);
        MergingIsExact(d, 0, rs[1..]);
        assert d.Add(0) == d;
      }
    }
  }

  /** Without any condition the counters agree modulo 65536. */
  ghost predicate Congruent(c: Counters, d: Counters) {
    && c.Valid() && d.Valid() && c.cur == d.cur
    && forall s | 0 <= s < 16 :: c.lcs[s] % WORD == d.lcs[s] % WORD
  }

  predicate SameSpot(x: Spot, y: Spot) {
    x.seg == y.seg && x.what == y.what && x.lc % WORD == y.lc % WORD
  }

  predicate SameSpots(a: seq<Spot>, b: seq<Spot>) {
    |a| == |b| && forall i | 0 <= i < |a| :: SameSpot(a[i], b[i])
  }

  lemma CongruentAdd(c: Counters, d: Counters, m: int, n: int)
    requires Congruent(c, d) && m % WORD == n % WORD
    ensures Congruent(c.Add(m), d.Add(n))
  {
    WordSum(c.Lc(), d.Lc(), m);
    WordSum(m, n, d.Lc());
  }

  lemma CongruentMove(c: Counters, d: Counters, r: Request)
    requires Congruent(c, d) && Allowed(r)
    ensures Congruent(c.Move(r), d.Move(r))
  {
    match r
    case Byte(_) => CongruentAdd(c, d, 1, 1);
    case Skip(n) => CongruentAdd(c, d, n, n);
    case SetSeg(_) =>
    case Reloc(size, _, _, _) => CongruentAdd(c, d, size, size);
  }

  /** Every request lands in its segment, at its location counter modulo 65536. */
  lemma {:induction false} MergingIsCongruent(c: Counters, d: Counters, pending: int, rs: seq<Request>)
    requires c.Valid() && Congruent(c.Add(pending), d) && AllAllowed(rs)
    ensures AllAllowed(Merged(pending, rs))
    ensures SameSpots(Spots(c, Merged(pending, rs)), Spots(d, rs))
    decreases |rs|
  {
    MergedIsAllowed(pending, rs);
    var n := pending % WORD;
    assert Congruent(c.Add(n), d) by {
      assert Congruent(c, c);
      CongruentAdd(c, c, n, pending);
    }
    if rs == [] {
      SpotsOfSkip(c, n, []);
      assert SkipOps(n) + [] == SkipOps(n);
    } else if rs[0].Skip? {
      assert c.Add(pending).Move(rs[0]) == c.Add(pending + rs[0].n);
      CongruentMove(c.Add(pending), d, rs[0]);
      MergingIsCongruent(c, d.Move(rs[0]), pending + rs[0].n, rs[1..]);
    } else {
      MergedIsAllowed(0, rs[1..]);
      SpotsOfStep(c, n, rs[0], Merged(0, rs[1..]));
      CongruentMove(c.Add(n), d, rs[0]);
      var e := c.Add(n).Move(rs[0]);
      assert e.Add(0) == e;
      MergingIsCongruent(e, d.Move(rs[0]), 0, rs[1..]);
    }
  }

  // ---- counters

  /** The object file's counters after some requests. */
  function Moved(k: Counters, rs: seq<Request>): (r: Counters)
    requires k.Valid() && AllAllowed(rs)
    ensures r.Valid()
    decreases |rs|
  {
    if rs == [] then k else Moved(k.Move(rs[0]), rs[1..])
  }

  lemma {:induction false} MovedAppend(k: Counters, a: seq<Request>, b: seq<Request>)
    requires k.Valid() && AllAllowed(a) && AllAllowed(b)
    ensures AllAllowed(a + b) && Moved(k, a + b) == Moved(Moved(k, a), b)
    decreases |a|
  {
    if a == [] {
      assert a + b == b;
    } else {
      assert (a + b)[1..] == a[1..] + b;
      MovedAppend(k.Move(a[0]), a[1..], b);
    }
  }

  lemma {:induction false} MovedBytes(k: Counters, data: seq<byte>)
    requires k.Valid()
    ensures AllAllowed(ByteOps(data)) && Moved(k, ByteOps(data)) == k.Add(|data|)
    decreases |data|
  {
    if data == [] {
      assert k.Add(0) == k;
    } else {
      assert ByteOps(data)[1..] == ByteOps(data[1..]);
      MovedBytes(k.Add(1), data[1..]);
      assert k.Add(1).Add(|data| - 1) == k.Add(|data|);
    }
  }

  lemma AddTwice(k: Counters, a: int, b: int)
    requires k.Valid()
    ensures k.Add(a).Add(b) == k.Add(a + b)
  {
  }

  /** When all runs fit, merging moves the counters as the requests do. */
  lemma {:induction false} MergedMoves(k: Counters, pending: int, rs: seq<Request>)
    requires k.Valid() && AllAllowed(rs) && RunsFit(pending, rs)
    ensures AllAllowed(Merged(pending, rs)) && Moved(k, Merged(pending, rs)) == Moved(k.Add(pending), rs)
    decreases |rs|
  {
    MergedIsAllowed(pending, rs);
    if rs == [] {
      SkipMoves(k, pending);
    } else if rs[0].Skip? {
      MergedMoves(k, pending + rs[0].n, rs[1..]);
      AddTwice(k, pending, rs[0].n);
    } else {
      MergedIsAllowed(0, rs[1..]);
      var r, rest := Normal(rs[0]), Merged(0, rs[1..]);
      NormalIsAllowed(rs[0]);
      SkipMoves(k, pending);
      MovedAppend(k, SkipOps(pending) + [r], rest);
      MovedAppend(k, SkipOps(pending), [r]);
      assert [r][1..] == [];
      var after := k.Add(pending).Move(r);
      MergedMoves(after, 0, rs[1..]);
      assert after.Add(0) == after;
      assert k.Add(pending).Move(rs[0]) == after;
    }
  }

  lemma SkipMoves(k: Counters, n: nat)
    requires k.Valid() && n < WORD
    ensures AllAllowed(SkipOps(n)) && n % WORD == n && Moved(k, SkipOps(n)) == k.Add(n)
  {
    if n == 0 {
      assert k.Add(0) == k;
    } else {
      assert [Skip(n)][1..] == [];
    }
  }

  /** A run of skips ends where something else begins. */
  lemma {:induction false} MergedConcat(pending: int, a: seq<Request>, b: seq<Request>)
    requires b != [] && !b[0].Skip?
    ensures Merged(pending, a + b) == Merged(pending, a) + Merged(0, b)
    decreases |a|
  {
    if a == [] {
      assert a + b == b;
      Assoc(SkipOps(pending % WORD), [Normal(b[0])], Merged(0, b[1..]));
      assert SkipOps(0) + [Normal(b[0])] == [Normal(b[0])];
    } else {
      assert (a + b)[1..] == a[1..] + b;
      if a[0].Skip? {
        MergedConcat(pending + a[0].n, a[1..], b);
      } else {
        MergedConcat(0, a[1..], b);
        Assoc(SkipOps(pending % WORD) + [Normal(a[0])], Merged(0, a[1..]), Merged(0, b));
      }
    }
  }

  lemma {:induction false} RunsFitPrefix(pending: int, a: seq<Request>, b: seq<Request>)
    requires b != [] && !b[0].Skip? && RunsFit(pending, a + b)
    ensures RunsFit(pending, a) && RunsFit(0, b)
    decreases |a|
  {
    if a == [] {
      assert a + b == b;
    } else {
      assert (a + b)[1..] == a[1..] + b;
      RunsFitPrefix(if a[0].Skip? then pending + a[0].n else 0, a[1..], b);
    }
  }
}
