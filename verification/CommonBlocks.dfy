/** Common blocks (ld/writex86.c:96-121): the linker allocates each module's blocks in
    multiples of four bytes inside the module's COMMON parts. */
module CommonBlocks {
  import opened Prelude
  import opened ScriptSyntax
  import opened Layout
  import opened Occupancy
  import opened Disjointness
  import opened Settling
  import opened ImageWriter

  /** A symbol that the module owns and that is imported or only given a size. */
  datatype Block = Block(seg: nat, size: nat)

  function RoundUp(n: nat): nat {
    (n + 3) / 4 * 4
  }

  /** Sizes are rounded up to multiples of four, and no further. */
  lemma RoundUpIs(n: nat, r: nat)
    ensures r == RoundUp(n) <==> n <= r < n + 4 && r % 4 == 0
  {
  }

  /** What the blocks take of a segment's common part. */
  function Used(blocks: seq<Block>, seg: nat): nat {
    if blocks == [] then 0
    else Used(blocks[..|blocks| - 1], seg) + (if blocks[|blocks| - 1].seg == seg then RoundUp(blocks[|blocks| - 1].size) else 0)
  }

  /** Every block is behind those before it, and the parts are as large as their blocks. */
  ghost predicate Sequential(blocks: seq<Block>, offsets: seq<Option<nat>>, comsize: seq<nat>) {
    && |offsets| == |blocks| && |comsize| == NSEG
    && (forall i | 0 <= i < |blocks| && blocks[i].size != 0 :: offsets[i] == Some(Used(blocks[..i], blocks[i].seg)))
    && (forall seg | 0 <= seg < NSEG :: comsize[seg] == Used(blocks, seg))
  }

  lemma SequentialGrows(blocks: seq<Block>, offsets: seq<Option<nat>>, comsize: seq<nat>, b: Block)
    requires Sequential(blocks, offsets, comsize) && b.seg < NSEG
    ensures Sequential(blocks + [b], offsets + [if b.size == 0 then None else Some(comsize[b.seg])],
                       comsize[b.seg := comsize[b.seg] + RoundUp(b.size)])
  {
    var all := blocks + [b];
    assert all[..|blocks|] == blocks;
    assert forall i | 0 <= i < |blocks| :: all[..i] == blocks[..i];
  }

  /** Block i lies inside its segment's common part. */
  predicate Fits(b: Block, offset: Option<nat>, comsize: seq<nat>)
    requires b.seg < |comsize|
  {
    if b.size == 0 then offset.None?
    else offset.Some? && offset.value % 4 == 0 && offset.value + b.size <= comsize[b.seg]
  }

  /** Two blocks of one segment do not overlap. */
  predicate Clear(a: Block, x: Option<nat>, b: Block, y: Option<nat>) {
    a.seg == b.seg && x.Some? && y.Some? ==> x.value + a.size <= y.value
  }

  ghost predicate Allocated(blocks: seq<Block>, offsets: seq<Option<nat>>, comsize: seq<nat>) {
    && |offsets| == |blocks| && |comsize| == NSEG
    && (forall i | 0 <= i < |blocks| :: blocks[i].seg < NSEG && Fits(blocks[i], offsets[i], comsize))
    && (forall i, j | 0 <= i < j < |blocks| :: Clear(blocks[i], offsets[i], blocks[j], offsets[j]))
  }

  lemma AllocateOne(blocks: seq<Block>, offsets: seq<Option<nat>>, comsize: seq<nat>, b: Block)
    requires Allocated(blocks, offsets, comsize) && b.seg < NSEG && b.size > 0 && comsize[b.seg] % 4 == 0
    ensures Allocated(blocks + [b], offsets + [Some(comsize[b.seg])], comsize[b.seg := comsize[b.seg] + RoundUp(b.size)])
  {
    assert b.size <= RoundUp(b.size);
    var all, at, size := blocks + [b], offsets + [Some(comsize[b.seg])], comsize[b.seg := comsize[b.seg] + RoundUp(b.size)];
    forall i | 0 <= i < |all|
      ensures all[i].seg < NSEG && Fits(all[i], at[i], size)
    {
      if i < |blocks| {
        assert Fits(blocks[i], offsets[i], comsize);
      }
    }
    forall i, j | 0 <= i < j < |all|
      ensures Clear(all[i], at[i], all[j], at[j])
    {
      assert Fits(blocks[i], offsets[i], comsize);
      if j < |blocks| {
        assert Clear(blocks[i], offsets[i], blocks[j], offsets[j]);
      }
    }
  }

  /** The blocks are allocated, and the next one will be aligned. */
  ghost predicate Ready(blocks: seq<Block>, offsets: seq<Option<nat>>, comsize: seq<nat>) {
    && Allocated(blocks, offsets, comsize) && Sequential(blocks, offsets, comsize)
    && (forall seg | 0 <= seg < NSEG :: comsize[seg] % 4 == 0)
  }

  lemma NextBlock(blocks: seq<Block>, offsets: seq<Option<nat>>, comsize: seq<nat>, b: Block)
    requires Ready(blocks, offsets, comsize) && b.seg < NSEG && b.size > 0
    ensures Ready(blocks + [b], offsets + [Some(comsize[b.seg])], comsize[b.seg := comsize[b.seg] + RoundUp(b.size)])
  {
    AllocateOne(blocks, offsets, comsize, b);
    SequentialGrows(blocks, offsets, comsize, b);
  }

  lemma EmptyBlock(blocks: seq<Block>, offsets: seq<Option<nat>>, comsize: seq<nat>, b: Block)
    requires Ready(blocks, offsets, comsize) && b.seg < NSEG && b.size == 0
    ensures Ready(blocks + [b], offsets + [None], comsize)
  {
    SequentialGrows(blocks, offsets, comsize, b);
    assert comsize[b.seg := comsize[b.seg] + RoundUp(0)] == comsize;
    EmptyIsAllocated(blocks, offsets, comsize, b);
  }

  lemma EmptyIsAllocated(blocks: seq<Block>, offsets: seq<Option<nat>>, comsize: seq<nat>, b: Block)
    requires Allocated(blocks, offsets, comsize) && b.seg < NSEG && b.size == 0
    ensures Allocated(blocks + [b], offsets + [None], comsize)
  {
  }

  /** Give every block its offset; a block without a size is an undefined symbol. */
  method Allocate(blocks: seq<Block>) returns (offsets: seq<Option<nat>>, comsize: seq<nat>, undefined: bool)
    requires forall i | 0 <= i < |blocks| :: blocks[i].seg < NSEG
    ensures Allocated(blocks, offsets, comsize) && Sequential(blocks, offsets, comsize)
    ensures undefined <==> exists i | 0 <= i < |blocks| :: blocks[i].size == 0
  {
    offsets, comsize, undefined := [], seq(NSEG, _ => 0), false;
    var i := 0;
    while i < |blocks|
      invariant 0 <= i <= |blocks| && Ready(blocks[..i], offsets, comsize)
      invariant undefined <==> exists j | 0 <= j < i :: blocks[j].size == 0
    {
      var b := blocks[i];
      assert blocks[..i] + [b] == blocks[..i + 1];
      if b.size == 0 {
        EmptyBlock(blocks[..i], offsets, comsize, b);
        undefined := true;
        offsets := offsets + [None];
      } else {
        NextBlock(blocks[..i], offsets, comsize, b);
        offsets := offsets + [Some(comsize[b.seg])];
        comsize := comsize[b.seg := comsize[b.seg] + RoundUp(b.size)];
      }
      i := i + 1;
    }
    assert blocks[..i] == blocks;
  }

  /** The blocks of the loaded module with this number, and what `Allocate` made of them. */
  datatype Commons = Commons(mod: nat, blocks: seq<Block>, offsets: seq<Option<nat>>, comsize: seq<nat>)
  {
    /** The linker takes the sizes of the COMMON parts from the allocation (ld/script.c:1868-1872). */
    ghost predicate PlacedIn(prog: Program) {
      && Allocated(blocks, offsets, comsize)
      && (forall seg | 0 <= seg < NSEG :: prog.PieceSize(CommonPiece(mod, seg)) == comsize[seg])
    }

    predicate Has(i: nat) {
      i < |blocks| == |offsets| && blocks[i].seg < NSEG && offsets[i].Some?
    }

    function Part(i: nat): nat
      requires Has(i)
    {
      CommonPiece(mod, blocks[i].seg)
    }

    /** The first address of block i, and the address after it. */
    function From(i: nat, st: State): int
      requires Has(i)
    {
      Lo(Part(i), st) + offsets[i].value
    }

    function To(i: nat, st: State): int
      requires Has(i)
    {
      From(i, st) + blocks[i].size
    }
  }

  /** A block with an offset lies inside its COMMON part. */
  lemma BlockInPart(c: Commons, i: nat, prog: Program, st: State)
    requires c.PlacedIn(prog) && c.Has(i)
    ensures 0 < c.blocks[i].size
    ensures Within(Lo(c.Part(i), st), c.From(i, st), c.To(i, st), Lo(c.Part(i), st) + prog.PieceSize(c.Part(i)))
  {
    assert Fits(c.blocks[i], c.offsets[i], c.comsize);
  }

  lemma PieceIsUnique(k: nat, seg: nat, k': nat, seg': nat)
    requires seg < NSEG && seg' < NSEG && CommonPiece(k, seg) == CommonPiece(k', seg')
    ensures k == k' && seg == seg'
  {
  }

  /** Two blocks of one COMMON part are the blocks of one segment. */
  lemma BlocksApart(c: Commons, i: nat, j: nat, prog: Program, st: State)
    requires c.PlacedIn(prog) && c.Has(i) && c.Has(j) && i != j && c.Part(i) == c.Part(j)
    ensures Apart(c.From(i, st), c.To(i, st), c.From(j, st), c.To(j, st))
  {
    PieceIsUnique(c.mod, c.blocks[i].seg, c.mod, c.blocks[j].seg);
    assert i < j ==> Clear(c.blocks[i], c.offsets[i], c.blocks[j], c.offsets[j]);
    assert j < i ==> Clear(c.blocks[j], c.offsets[j], c.blocks[i], c.offsets[i]);
  }

  /** Allocated common blocks of an accepted layout, of one module or of two, in one COMMON part
      or in different ones, do not overlap and lie in $0000-$FFFF. */
  lemma BlocksAreDisjoint(prog: Program, c: Commons, i: nat, d: Commons, j: nat, s: Section, t: Section)
    requires LayoutOf(prog).Some? && Placeable(SectionsOf(prog.top)) && Checked(prog, LayoutOf(prog).value.0)
    requires c.PlacedIn(prog) && d.PlacedIn(prog) && c.Has(i) && d.Has(j)
    requires if c == d then i != j else c.mod != d.mod
    requires s in SectionsOf(prog.top) && t in SectionsOf(prog.top) && (!prog.sepid || s.datapart == t.datapart)
    requires c.Part(i) in PiecesOf(s.body) && d.Part(j) in PiecesOf(t.body)
    ensures Apart(c.From(i, LayoutOf(prog).value.0), c.To(i, LayoutOf(prog).value.0),
                  d.From(j, LayoutOf(prog).value.0), d.To(j, LayoutOf(prog).value.0))
    ensures Within(0, c.From(i, LayoutOf(prog).value.0), c.To(i, LayoutOf(prog).value.0), 0x10000)
    ensures Within(0, d.From(j, LayoutOf(prog).value.0), d.To(j, LayoutOf(prog).value.0), 0x10000)
  {
    var st := LayoutOf(prog).value.0;
    BlockInPart(c, i, prog, st);
    BlockInPart(d, j, prog, st);
    PartInSpace(prog, c.Part(i), s, st);
    PartInSpace(prog, d.Part(j), t, st);
    if c.Part(i) == d.Part(j) {
      PieceIsUnique(c.mod, c.blocks[i].seg, d.mod, d.blocks[j].seg);
      BlocksApart(c, i, j, prog, st);
    } else {
      AcceptedIsDisjoint(prog, PieceItem(c.Part(i)), PieceItem(d.Part(j)), s, t);
    }
  }

  /** An input section of an accepted layout is in $0000-$FFFF. */
  lemma PartInSpace(prog: Program, p: nat, s: Section, st: State)
    requires LayoutOf(prog).Some? && Placeable(SectionsOf(prog.top)) && Checked(prog, st) && st == LayoutOf(prog).value.0
    requires s in SectionsOf(prog.top) && p in PiecesOf(s.body)
    ensures Within(0, Lo(p, st), Lo(p, st) + prog.PieceSize(p), 0x10000)
  {
    AcceptedLays(prog);
    assert SectionLaid(s, prog, st) && SectionFits(s, prog, st);
    InsideBounds(PieceItem(p), s, prog, st);
  }
}
