/** What occupies which addresses: input sections with their padding, gaps and
    BYTE/WORD data never overlap, inside a section and across the program. */
module Occupancy {
  import opened Prelude
  import opened ScriptSyntax
  import opened Layout
  import opened InformationFlow

  ghost predicate Distinct<T>(s: seq<T>) {
    forall i, j | 0 <= i < j < |s| :: s[i] != s[j]
  }

  function Lo(p: nat, st: State): int {
    At(st.store, PieceVma(p))
  }

  /** The end of an input section and the padding after it. */
  function Hi(p: nat, prog: Program, st: State): int {
    Lo(p, st) + prog.PieceSize(p) + At(st.store, PiecePad(p))
  }

  function ExtraEnd(x: Extra): int {
    x.vma + x.len
  }

  predicate Within(lo: int, a: int, b: int, hi: int) {
    lo <= a <= b <= hi
  }

  /** Half-open address ranges that share no address. */
  predicate Apart(a: int, a': int, b: int, b': int) {
    a' <= b || b' <= a
  }

  ghost predicate PiecesPacked(ps: seq<nat>, lo: int, hi: int, prog: Program, st: State) {
    && (forall i | 0 <= i < |ps| :: Within(lo, Lo(ps[i], st), Hi(ps[i], prog, st), hi))
    && (forall i | 0 <= i < |ps| :: 0 <= At(st.store, PiecePad(ps[i])))
    && (forall i, j | 0 <= i < j < |ps| :: Hi(ps[i], prog, st) <= Lo(ps[j], st))
  }

  ghost predicate ExtrasPacked(from: nat, lo: int, hi: int, st: State) {
    && from <= |st.extras|
    && (forall k | from <= k < |st.extras| ::
          st.extras[k].sect == st.cur && Within(lo, st.extras[k].vma, ExtraEnd(st.extras[k]), hi))
    && (forall k, l | from <= k < l < |st.extras| :: ExtraEnd(st.extras[k]) <= st.extras[l].vma)
  }

  /** The input sections `ps` and the extras from index `from` lie in [lo, hi) and
      none overlaps another. */
  ghost predicate Packed(ps: seq<nat>, from: nat, lo: int, hi: int, prog: Program, st: State) {
    && lo <= hi
    && PiecesPacked(ps, lo, hi, prog, st)
    && ExtrasPacked(from, lo, hi, st)
    && (forall i, k | 0 <= i < |ps| && from <= k < |st.extras| ::
          Apart(Lo(ps[i], st), Hi(ps[i], prog, st), st.extras[k].vma, ExtraEnd(st.extras[k])))
  }

  /** A step that adds to the extras and leaves the input sections `ps` alone. */
  ghost predicate Keeps(ps: seq<nat>, a: State, b: State) {
    && a.extras <= b.extras && b.cur == a.cur
    && (forall i | 0 <= i < |ps| ::
          At(b.store, PieceVma(ps[i])) == At(a.store, PieceVma(ps[i]))
          && At(b.store, PiecePad(ps[i])) == At(a.store, PiecePad(ps[i])))
  }

  lemma KeepsPacked(ps: seq<nat>, lo: int, hi: int, prog: Program, a: State, b: State)
    requires PiecesPacked(ps, lo, hi, prog, a) && Keeps(ps, a, b)
    ensures PiecesPacked(ps, lo, hi, prog, b)
  {
    forall i | 0 <= i < |ps|
      ensures Lo(ps[i], b) == Lo(ps[i], a) && Hi(ps[i], prog, b) == Hi(ps[i], prog, a)
    {
    }
  }

  /** Two packed ranges, one after the other, make a packed range. */
  lemma JoinPieces(ps: seq<nat>, qs: seq<nat>, lo: int, mid: int, hi: int, prog: Program, st: State)
    requires PiecesPacked(ps, lo, mid, prog, st) && PiecesPacked(qs, mid, hi, prog, st) && lo <= mid <= hi
    ensures PiecesPacked(ps + qs, lo, hi, prog, st)
  {
  }

  lemma JoinExtras(from: nat, lo: int, mid: int, hi: int, a: State, b: State)
    requires ExtrasPacked(from, lo, mid, a) && ExtrasPacked(|a.extras|, mid, hi, b) && lo <= mid <= hi
    requires a.extras <= b.extras && a.cur == b.cur
    ensures ExtrasPacked(from, lo, hi, b)
  {
    assert forall k | 0 <= k < |a.extras| :: b.extras[k] == a.extras[k];
  }

  lemma Join(ps: seq<nat>, qs: seq<nat>, from: nat, lo: int, mid: int, hi: int, prog: Program, a: State, b: State)
    requires Packed(ps, from, lo, mid, prog, a) && Packed(qs, |a.extras|, mid, hi, prog, b) && Keeps(ps, a, b)
    ensures Packed(ps + qs, from, lo, hi, prog, b)
  {
    KeepsPacked(ps, lo, mid, prog, a, b);
    JoinPieces(ps, qs, lo, mid, hi, prog, b);
    JoinExtras(from, lo, mid, hi, a, b);
    var rs := ps + qs;
    forall i, k | 0 <= i < |rs| && from <= k < |b.extras|
      ensures Apart(Lo(rs[i], b), Hi(rs[i], prog, b), b.extras[k].vma, ExtraEnd(b.extras[k]))
    {
      if i < |ps| && k < |a.extras| {
        assert Apart(Lo(ps[i], a), Hi(ps[i], prog, a), a.extras[k].vma, ExtraEnd(a.extras[k]));
      } else if i >= |ps| && k >= |a.extras| {
        assert rs[i] == qs[i - |ps|];
      } else if i < |ps| {
        assert Within(lo, Lo(ps[i], b), Hi(ps[i], prog, b), mid);
      } else {
        assert rs[i] == qs[i - |ps|];
        assert b.extras[k] == a.extras[k];
        assert Within(mid, Lo(qs[i - |ps|], b), Hi(qs[i - |ps|], prog, b), hi);
      }
    }
  }

  // ---- walks

  lemma {:induction false} PlacePiecesPack(ps: seq<nat>, sub: pos, prog: Program, a: State)
    requires Distinct(ps)
    ensures Packed(ps, |a.extras|, a.dot, PlacePieces(ps, sub, prog, a).dot, prog, PlacePieces(ps, sub, prog, a))
    ensures PlacePieces(ps, sub, prog, a).extras == a.extras
  {
    if ps != [] {
      var b := PlacePiece(ps[0], sub, prog, a);
      var c := PlacePieces(ps[1..], sub, prog, b);
      PlacePiecesPack(ps[1..], sub, prog, b);
      assert Packed([ps[0]], |a.extras|, a.dot, b.dot, prog, b);
      PlacePiecesOnly(ps[1..], sub, prog, b);
      PieceCellsMember(ps[1..], ps[0]);
      assert Keeps([ps[0]], b, c);
      Join([ps[0]], ps[1..], |a.extras|, a.dot, b.dot, c.dot, prog, b, c);
      assert [ps[0]] + ps[1..] == ps;
    }
  }

  lemma {:induction false} PieceCellsMember(ps: seq<nat>, p: nat)
    ensures p in ps <==> PieceVma(p) in PieceCells(ps)
    ensures p in ps <==> PiecePad(p) in PieceCells(ps)
  {
    if ps != [] {
      PieceCellsMember(ps[1..], p);
    }
  }

  lemma {:induction false} WrittenMember(s: Stmt, prog: Program, p: nat)
    requires PieceVma(p) in Written(s, prog) || PiecePad(p) in Written(s, prog)
    ensures p in PiecesOf(s)
    decreases s
  {
    if PieceVma(p) in Written(s.next, prog) || PiecePad(p) in Written(s.next, prog) {
      WrittenMember(s.next, prog, p);
    } else if s.OnePage? {
      WrittenMember(s.body, prog, p);
    } else {
      PieceCellsMember(s.pieces, p);
    }
  }

  lemma WalkKeeps(ps: seq<nat>, s: Stmt, sub: pos, prog: Program, a: State)
    requires Walk(s, sub, prog, a).Some? && a.extras <= Walk(s, sub, prog, a).value.extras
    requires forall p <- ps :: p !in PiecesOf(s)
    ensures Keeps(ps, a, Walk(s, sub, prog, a).value)
  {
    WalkOnly(s, sub, prog, a);
    forall i | 0 <= i < |ps|
      ensures PieceVma(ps[i]) !in Written(s, prog) && PiecePad(ps[i]) !in Written(s, prog)
    {
      if PieceVma(ps[i]) in Written(s, prog) || PiecePad(ps[i]) in Written(s, prog) {
        WrittenMember(s, prog, ps[i]);
      }
    }
  }

  lemma GapPacks(to: int, prog: Program, a: State)
    requires to >= a.dot
    ensures Packed([], |a.extras|, a.dot, to, prog, Gap(to, a).(dot := to))
    ensures a.extras <= Gap(to, a).extras
  {
  }

  lemma PageUpBounds(a: int)
    ensures a <= PageUp(a) < a + 256 && PageUp(a) % 256 == 0
  {
  }

  lemma {:induction false} ExecPacks(s: Stmt, sub: pos, prog: Program, a: State)
    requires !s.End? && Exec(s, sub, prog, a).Some? && Distinct(PiecesBy(s))
    ensures a.extras <= Exec(s, sub, prog, a).value.extras
    ensures Packed(PiecesBy(s), |a.extras|, a.dot, Exec(s, sub, prog, a).value.dot, prog, Exec(s, sub, prog, a).value)
    decreases s, 0
  {
    var b := Exec(s, sub, prog, a).value;
    if s.Input? {
      PlacePiecesPack(s.pieces, sub, prog, a);
    } else if s.OnePage? {
      OnePagePacks(s, sub, prog, a);
    } else if s.SetDot? {
      GapPacks(b.dot, prog, a);
    }
  }

  /** A ONEPAGE block, moved or not; `start` is where its contents begin. */
  ghost function BlockStart(body: Stmt, sub: pos, prog: Program, a: State): int
    requires Walk(body, sub, prog, a).Some?
  {
    if CrossesPage(a.dot, Walk(body, sub, prog, a).value.dot) then PageUp(a.dot) else a.dot
  }

  lemma {:induction false} OnePagePacks(s: Stmt, sub: pos, prog: Program, a: State)
    requires s.OnePage? && Exec(s, sub, prog, a).Some? && Distinct(PiecesOf(s.body))
    ensures a.extras <= Exec(s, sub, prog, a).value.extras
    ensures Packed(PiecesOf(s.body), |a.extras|, a.dot, Exec(s, sub, prog, a).value.dot, prog, Exec(s, sub, prog, a).value)
    ensures PiecesPacked(PiecesOf(s.body), BlockStart(s.body, sub, prog, a),
                         Exec(s, sub, prog, a).value.dot, prog, Exec(s, sub, prog, a).value)
    decreases s.body, 2
  {
    var walked := Walk(s.body, sub, prog, a).value;
    if CrossesPage(a.dot, walked.dot) {
      var moved := MoveToPage(a, walked);
      var b := Walk(s.body, sub, prog, moved).value;
      PageUpBounds(a.dot);
      WalkOnly(s.body, sub, prog, a);
      GapPacks(PageUp(a.dot), prog, walked.(extras := a.extras, fill := a.fill, dot := a.dot));
      WalkPacks(s.body, sub, prog, moved);
      assert Keeps([], moved, b) by {
        WalkOnly(s.body, sub, prog, moved);
      }
      Join([], PiecesOf(s.body), |a.extras|, a.dot, moved.dot, b.dot, prog, moved, b);
      assert [] + PiecesOf(s.body) == PiecesOf(s.body);
    } else {
      WalkPacks(s.body, sub, prog, a);
    }
  }

  lemma {:induction false} WalkPacks(s: Stmt, sub: pos, prog: Program, a: State)
    requires Walk(s, sub, prog, a).Some? && Distinct(PiecesOf(s))
    ensures a.extras <= Walk(s, sub, prog, a).value.extras
    ensures Packed(PiecesOf(s), |a.extras|, a.dot, Walk(s, sub, prog, a).value.dot, prog, Walk(s, sub, prog, a).value)
    decreases s, 1
  {
    if !s.End? {
      var ps, qs := PiecesBy(s), PiecesOf(s.next);
      DistinctParts(ps, qs);
      var b := Exec(s, sub, prog, a).value;
      var c := Walk(s.next, sub, prog, b).value;
      ExecPacks(s, sub, prog, a);
      WalkPacks(s.next, sub, prog, b);
      WalkKeeps(ps, s.next, sub, prog, b);
      ExecOnly(s, sub, prog, a);
      Join(ps, qs, |a.extras|, a.dot, b.dot, c.dot, prog, b, c);
    }
  }

  lemma DistinctParts<T>(a: seq<T>, b: seq<T>)
    requires Distinct(a + b)
    ensures Distinct(a) && Distinct(b)
    ensures forall x <- a :: x !in b
  {
    assert forall i | 0 <= i < |a| :: (a + b)[i] == a[i];
    assert forall i | 0 <= i < |b| :: (a + b)[|a| + i] == b[i];
  }

  // ---- ONEPAGE

  /** A statement list whose size does not depend on where it is. */
  predicate FixedSize(s: Stmt) {
    s.End? || (!s.SetDot? && !s.OnePage? && FixedSize(s.next))
  }

  function PiecesSize(ps: seq<nat>, sub: pos, prog: Program): nat {
    if ps == [] then 0
    else prog.PieceSize(ps[0]) + PadFor(prog.PieceSize(ps[0]), sub) + PiecesSize(ps[1..], sub, prog)
  }

  function BodySize(s: Stmt, sub: pos, prog: Program): nat
    requires FixedSize(s)
  {
    if s.End? then 0
    else
      (if s.Input? then PiecesSize(s.pieces, sub, prog) else if s.Data? then s.width else 0)
      + BodySize(s.next, sub, prog)
  }

  lemma {:induction false} PlacePiecesAdvance(ps: seq<nat>, sub: pos, prog: Program, a: State)
    ensures PlacePieces(ps, sub, prog, a).dot == a.dot + PiecesSize(ps, sub, prog)
  {
    if ps != [] {
      PlacePiecesAdvance(ps[1..], sub, prog, PlacePiece(ps[0], sub, prog, a));
    }
  }

  lemma {:induction false} WalkAdvances(s: Stmt, sub: pos, prog: Program, a: State)
    requires FixedSize(s) && Walk(s, sub, prog, a).Some?
    ensures Walk(s, sub, prog, a).value.dot == a.dot + BodySize(s, sub, prog)
  {
    if !s.End? {
      if s.Input? {
        PlacePiecesAdvance(s.pieces, sub, prog, a);
      }
      WalkAdvances(s.next, sub, prog, Exec(s, sub, prog, a).value);
    }
  }

  /** ONEPAGE: an accepted block of fixed size ends up inside one page, moves by
      less than a page, and moves exactly when its own start and end are on
      different pages; its input sections lie between its start and its end. */
  lemma OnePageKeepsPage(s: Stmt, sub: pos, prog: Program, a: State)
    requires s.OnePage? && FixedSize(s.body) && Distinct(PiecesOf(s.body))
    requires Exec(s, sub, prog, a).Some?
    ensures Walk(s.body, sub, prog, a).Some?
    ensures
      var b, start, size := Exec(s, sub, prog, a).value, BlockStart(s.body, sub, prog, a), BodySize(s.body, sub, prog);
      && b.dot == start + size
      && (size > 0 ==> start / 256 == (b.dot - 1) / 256)
      && a.dot <= start < a.dot + 256
      && (start != a.dot ==> a.dot / 256 != (a.dot + size) / 256)
      && (a.dot / 256 != (a.dot + size) / 256 ==> start == PageUp(a.dot))
      && PiecesPacked(PiecesOf(s.body), start, b.dot, prog, b)
  {
    var walked := Walk(s.body, sub, prog, a).value;
    WalkAdvances(s.body, sub, prog, a);
    PageUpBounds(a.dot);
    OnePagePacks(s, sub, prog, a);
    if CrossesPage(a.dot, walked.dot) {
      WalkAdvances(s.body, sub, prog, MoveToPage(a, walked));
    }
  }
}
