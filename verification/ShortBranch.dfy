/** Two-byte branches (as/mops.c:245-264, 287-299): what the processor computes from the
    displacement is the target's final address, wherever the segment is placed. */
module ShortBranch {
  import opened Prelude
  import opened AsmExpression
  import opened ObjectCode

  /** A displacement byte as the processor reads it. */
  function SignExtended(b: byte): int {
    if b < 128 then b as int else b as int - 256
  }

  predicate FitsByte(offset: int) {
    Wrap(offset + 0x80) < 0x100
  }

  /** The target is in the same file and segment, and bound in the same way. */
  predicate SamePlace(v: Tag, lc: Tag) {
    v.imp == lc.imp && !Differ(v, lc)
  }

  /** What the last pass makes of a branch to v; None when it reports an error. */
  function Displacement(v: Value, c: Context): Option<int> {
    if v.bad || v.tag.imp || !SamePlace(v.tag, c.lcTag) then None
    else if v.tag.und || c.lcTag.und then Some(v.offset)
    else if FitsByte(Wrap(v.offset - c.lc - 2)) then Some(Wrap(v.offset - c.lc - 2))
    else None
  }

  lemma SignExtends(d: int)
    requires InRange(d) && FitsByte(d)
    ensures Wrap(SignExtended(ToBytes(d, 1)[0])) == d
  {
    assert ToBytes(d, 1)[0] == (d % 256) as byte;
    if d < 128 {
      assert d % 256 == d;
    } else {
      assert W - 128 <= d;
      ModuloIs(d, 256, W / 256 - 1, d - W + 256);
    }
  }

  lemma BranchValue(v: Value, c: Context, p: Placement, d: int)
    requires InRange(v.offset) && !v.tag.und && !c.lcTag.und && Displacement(v, c) == Some(d)
    ensures Wrap(c.lc + BaseOf(c.lcTag, p) + 2 + SignExtended(ToBytes(d, 1)[0])) == Final(v, p)
  {
    assert Adjustment(v, p) == BaseOf(c.lcTag, p);
    SignExtends(d);
    BranchSum(v.offset, c.lc, BaseOf(c.lcTag, p), SignExtended(ToBytes(d, 1)[0]));
  }

  /** The address after the branch plus the displacement is the target. */
  lemma BranchReachesTarget(e: Expr, c: Context, p: Placement)
    requires c.last && Sane(c) && WellTagged(c) && NumbersInRange(e) && Unwrapped(e, c, p) && !c.lcTag.und
    requires Displacement(Eval(e, c), c).Some?
    ensures Wrap(c.lc + BaseOf(c.lcTag, p) + 2 + SignExtended(ToBytes(Displacement(Eval(e, c), c).value, 1)[0]))
         == Meaning(e, c, p)
  {
    OperandIsSound(e, c, p);
    DefinedWhenAccepted(e, c);
    BranchValue(Eval(e, c), c, p, Displacement(Eval(e, c), c).value);
  }

  lemma BranchSum(target: int, lc: int, base: int, s: int)
    requires Wrap(s) == Wrap(target - lc - 2)
    ensures Wrap(lc + base + 2 + s) == Wrap(target + base)
  {
    WrapAdds(s, lc + base + 2);
    WrapAdds(target - lc - 2, lc + base + 2);
  }

  /** An accepted operand is defined. */
  lemma {:induction false} DefinedWhenAccepted(e: Expr, c: Context)
    requires c.last && !c.lcTag.und && !Eval(e, c).bad && (forall x :: c.Look(x).reserved || SaneSymbol(c.Look(x)))
    ensures Eval(e, c).tag.und ==> Eval(e, c).tag.imp
  {
    match e
    case Neg(a) => DefinedWhenAccepted(a, c);
    case Not(a) => DefinedWhenAccepted(a, c);
    case Bin(op, a, b) =>
      DefinedWhenAccepted(a, c);
      DefinedWhenAccepted(b, c);
      CombinedIsDefined(op, Eval(a, c), Eval(b, c), Arith(op, Eval(a, c).offset, Eval(b, c).offset));
    case Id(x) => assert c.Look(x).reserved || SaneSymbol(c.Look(x));
    case Here =>
    case Number(_) =>
  }

  lemma CombinedIsDefined(op: Op, l: Value, r: Value, o: int)
    requires !CheckTags(op, l, r, Both(l, r, o, Join(l.tag, r.tag)), true).bad
    requires (l.tag.und ==> l.tag.imp) && (r.tag.und ==> r.tag.imp)
    ensures CheckTags(op, l, r, Both(l, r, o, Join(l.tag, r.tag)), true).tag.und ==>
              CheckTags(op, l, r, Both(l, r, o, Join(l.tag, r.tag)), true).tag.imp
  {
  }

  /** The part of the assembler's state that a branch works on. */
  class BranchState {
    var lastexp: Value
    var mcount: int
    var pcrflag: bool

    constructor (v: Value)
      ensures lastexp == v && mcount == 0 && !pcrflag
    {
      lastexp, mcount, pcrflag := v, 0, false;
    }

    method ShowRelBad()
      modifies this`lastexp
      ensures lastexp == old(lastexp).(tag := UNDEFINED, bad := true)
    {
      lastexp := lastexp.(tag := UNDEFINED, bad := true);
    }

    /** `reldata`: after it the operand is absolute, refused, or relative to the PC. */
    method RelData(lcTag: Tag)
      modifies this`lastexp, this`pcrflag
      ensures lastexp.offset == old(lastexp.offset)
      ensures SamePlace(old(lastexp.tag), lcTag) ==>
                !lastexp.tag.rel && lastexp.bad == old(lastexp.bad) && lastexp.tag.und == (old(lastexp.tag.und) || lcTag.und)
      ensures !SamePlace(old(lastexp.tag), lcTag) ==> lastexp.bad || (pcrflag && lastexp.tag.rel)
    {
      if !SamePlace(lastexp.tag, lcTag) {
        if lastexp.tag.rel != lcTag.rel {
          ShowRelBad();
        } else {
          pcrflag := true;
          lastexp := lastexp.(tag := Join(lcTag.(seg := 0), lastexp.tag).(rel := true));
        }
      } else {
        lastexp := lastexp.(tag := Join(lastexp.tag, lcTag).(rel := false, seg := 0));
      }
    }

    /** `mshort` in the last pass: two bytes, of which the second is the displacement. */
    method Short(c: Context)
      requires c.last
      modifies this
      ensures mcount == old(mcount) + 2
      ensures old(mcount) == 0 ==> lastexp.bad == Displacement(old(lastexp), c).None?
      ensures old(mcount) == 0 && !lastexp.bad ==> !lastexp.tag.rel && Some(lastexp.offset) == Displacement(old(lastexp), c)
    {
      if lastexp.tag.imp {
        lastexp := lastexp.(tag := UNDEFINED, bad := true);
      }
      mcount := mcount + 2;
      RelData(c.lcTag);
      if lastexp.tag.rel {
        ShowRelBad();
      } else if !lastexp.tag.und {
        lastexp := lastexp.(offset := Wrap(lastexp.offset - c.lc - mcount));
        if !FitsByte(lastexp.offset) {
          lastexp := lastexp.(bad := true);
        }
      }
    }
  }
}
