/** The grammar of script expressions: C's, with one nonterminal for each level of precedence. The
    tree that the parser builds is one that the grammar derives from the tokens that were read. */
module ScriptGrammar {
  import opened Prelude
  import opened ScriptSyntax
  import opened ScriptParser

  datatype Token = Word(name: string) | Number(n: nat) | Sign(text: string)

  // ---- tokens

  /** The number of the digit. */
  predicate DigitIs(c: char, d: nat) {
    d < 16 && ("0123456789abcdef"[d] == c || "0123456789ABCDEF"[d] == c)
  }

  /** The text is n in positional notation. */
  predicate Notation(w: string, base: pos, n: nat)
    requires base <= 16
    decreases |w|
  {
    w != [] && DigitIs(w[|w| - 1], n % base)
    && (if |w| == 1 then n < base else Notation(w[..|w| - 1], base, n / base))
  }

  predicate HexPrefix(w: string) {
    |w| >= 2 && w[0] == '0' && (w[1] == 'x' || w[1] == 'X')
  }

  predicate Hexadecimal(w: string, n: nat) {
    Notation(w, 16, n) || (HexPrefix(w) && Notation(w[2..], 16, n))
  }

  /** `$` or 0x before hexadecimal digits, 0 before octal ones, or decimal digits. */
  predicate Unscaled(w: string, n: nat) {
    w != []
    && (if w[0] == '$' then Hexadecimal(w[1..], n)
        else if HexPrefix(w) then Notation(w[2..], 16, n)
        else if w[0] == '0' then Notation(w, 8, n)
        else Notation(w, 10, n))
  }

  /** A number, perhaps in units of 1024. */
  predicate IsNumber(w: string, n: nat) {
    || Unscaled(w, n)
    || (w != [] && (w[|w| - 1] == 'K' || w[|w| - 1] == 'k') && n % 1024 == 0 && Unscaled(w[..|w| - 1], n / 1024))
  }

  /** ASCII letters, by their codes. */
  predicate IsLetter(c: char) {
    65 <= c as int <= 90 || 97 <= c as int <= 122
  }

  predicate NameChar(c: char) {
    IsLetter(c) || 48 <= c as int <= 57 || c in "_.$"
  }

  predicate IsWord(w: string) {
    w != [] && (IsLetter(w[0]) || w[0] == '_' || w[0] == '.') && forall i | 0 <= i < |w| :: NameChar(w[i])
  }

  /** Signs that are not the beginning of a longer one. */
  predicate IsSign(w: string, next: char) {
    || w in {"(", ")", ",", "?", ":", "+", "-", "*", "%", "^", "~", "!",
             "||", "&&", "==", "!=", "<=", ">=", "<<", ">>"}
    || (w == "/" && next != '*')
    || (w == "|" && next != '|' && next != '=') || (w == "&" && next != '&' && next != '=')
    || (w == "<" && next != '<' && next != '=') || (w == ">" && next != '>' && next != '=')
  }

  /** The first i characters of the text are the token. */
  predicate IsToken(s: string, i: nat, t: Token) {
    i <= |s|
    && match t
       case Word(x) => x == s[..i] && IsWord(x) && !NameChar(Peek(s[i..]))
       case Number(n) => IsNumber(s[..i], n) && !NameChar(Peek(s[i..]))
       case Sign(x) => x == s[..i] && IsSign(x, Peek(s[i..]))
  }

  predicate ClosesComment(s: string, j: int) {
    2 <= j <= |s| && s[j - 2] == '*' && s[j - 1] == '/'
  }

  /** They are white space or a comment. */
  ghost predicate IsBlank(s: string, i: nat) {
    0 < i <= |s|
    && (|| (i == 1 && s[0] as int in {9, 10, 11, 12, 13, 32})
        || (i >= 4 && s[0] == '/' && s[1] == '*' && ClosesComment(s, i) && forall j | 4 <= j < i :: !ClosesComment(s, j))
        || (s[0] == '#' && '\n' !in s[..i] && (i < |s| ==> s[i] == '\n')))
  }

  /** The text is cut into pieces of these lengths, which are blanks and the tokens; t is left. */
  ghost predicate Cuts(s: string, lengths: seq<nat>, ts: seq<Token>, t: string)
    decreases lengths
  {
    if lengths == [] then ts == [] && s == t
    else
      0 < lengths[0] <= |s|
      && (|| (IsBlank(s, lengths[0]) && Cuts(s[lengths[0]..], lengths[1..], ts, t))
          || (ts != [] && IsToken(s, lengths[0], ts[0]) && Cuts(s[lengths[0]..], lengths[1..], ts[1..], t)))
  }

  /** Reading these tokens from text s leaves text t. */
  ghost predicate Lexes(s: string, ts: seq<Token>, t: string) {
    exists lengths :: Cuts(s, lengths, ts, t)
  }

  // ---- the grammar

  predicate Has(ts: seq<Token>, i: int, text: string) {
    0 <= i < |ts| && ts[i] == Sign(text)
  }

  /** An expression, with ?: that groups to the right. */
  ghost predicate IsExpression(ts: seq<Token>, e: Expr)
    decreases |ts|, 12
  {
    IsLogicalOr(ts, e)
    || (e.Cond? && exists i, j | Has(ts, i, "?") && Has(ts, j, ":") && i < j ::
          IsLogicalOr(ts[..i], e.a) && IsExpression(ts[i + 1..j], e.b) && IsExpression(ts[j + 1..], e.c))
  }

  ghost predicate IsLogicalOr(ts: seq<Token>, e: Expr)
    decreases |ts|, 11
  {
    IsLogicalAnd(ts, e)
    || (e.Binary? && exists i | Has(ts, i, "||") && e.bop == LOr :: IsLogicalOr(ts[..i], e.a) && IsLogicalAnd(ts[i + 1..], e.b))
  }

  ghost predicate IsLogicalAnd(ts: seq<Token>, e: Expr)
    decreases |ts|, 10
  {
    IsInclusiveOr(ts, e)
    || (e.Binary? && exists i | Has(ts, i, "&&") && e.bop == LAnd :: IsLogicalAnd(ts[..i], e.a) && IsInclusiveOr(ts[i + 1..], e.b))
  }

  ghost predicate IsInclusiveOr(ts: seq<Token>, e: Expr)
    decreases |ts|, 9
  {
    IsExclusiveOr(ts, e)
    || (e.Binary? && exists i | Has(ts, i, "|") && e.bop == BitOr :: IsInclusiveOr(ts[..i], e.a) && IsExclusiveOr(ts[i + 1..], e.b))
  }

  ghost predicate IsExclusiveOr(ts: seq<Token>, e: Expr)
    decreases |ts|, 8
  {
    IsAnd(ts, e)
    || (e.Binary? && exists i | Has(ts, i, "^") && e.bop == BitXor :: IsExclusiveOr(ts[..i], e.a) && IsAnd(ts[i + 1..], e.b))
  }

  ghost predicate IsAnd(ts: seq<Token>, e: Expr)
    decreases |ts|, 7
  {
    IsEquality(ts, e)
    || (e.Binary? && exists i | Has(ts, i, "&") && e.bop == BitAnd :: IsAnd(ts[..i], e.a) && IsEquality(ts[i + 1..], e.b))
  }

  ghost predicate IsEquality(ts: seq<Token>, e: Expr)
    decreases |ts|, 6
  {
    IsRelation(ts, e)
    || (e.Binary? && exists i | (Has(ts, i, "==") && e.bop == Eq) || (Has(ts, i, "!=") && e.bop == Ne) ::
          IsEquality(ts[..i], e.a) && IsRelation(ts[i + 1..], e.b))
  }

  ghost predicate IsRelation(ts: seq<Token>, e: Expr)
    decreases |ts|, 5
  {
    IsShift(ts, e)
    || (e.Binary? && exists i | (Has(ts, i, "<") && e.bop == Lt) || (Has(ts, i, "<=") && e.bop == Le)
                              || (Has(ts, i, ">") && e.bop == Gt) || (Has(ts, i, ">=") && e.bop == Ge) ::
          IsRelation(ts[..i], e.a) && IsShift(ts[i + 1..], e.b))
  }

  ghost predicate IsShift(ts: seq<Token>, e: Expr)
    decreases |ts|, 4
  {
    IsSum(ts, e)
    || (e.Binary? && exists i | (Has(ts, i, "<<") && e.bop == Shl) || (Has(ts, i, ">>") && e.bop == Shr) ::
          IsShift(ts[..i], e.a) && IsSum(ts[i + 1..], e.b))
  }

  ghost predicate IsSum(ts: seq<Token>, e: Expr)
    decreases |ts|, 3
  {
    IsProduct(ts, e)
    || (e.Binary? && exists i | (Has(ts, i, "+") && e.bop == Add) || (Has(ts, i, "-") && e.bop == Sub) ::
          IsSum(ts[..i], e.a) && IsProduct(ts[i + 1..], e.b))
  }

  ghost predicate IsProduct(ts: seq<Token>, e: Expr)
    decreases |ts|, 2
  {
    IsUnary(ts, e)
    || (e.Binary? && exists i | (Has(ts, i, "*") && e.bop == Mul) || (Has(ts, i, "/") && e.bop == Div)
                              || (Has(ts, i, "%") && e.bop == Mod) ::
          IsProduct(ts[..i], e.a) && IsUnary(ts[i + 1..], e.b))
  }

  ghost predicate IsUnary(ts: seq<Token>, e: Expr)
    decreases |ts|, 1
  {
    || IsPrimary(ts, e)
    || (Has(ts, 0, "-") && e.Unary? && e.uop == Neg && IsUnary(ts[1..], e.a))
    || (Has(ts, 0, "~") && e.Unary? && e.uop == Compl && IsUnary(ts[1..], e.a))
    || (Has(ts, 0, "!") && e.Unary? && e.uop == Not && IsUnary(ts[1..], e.a))
    || (Has(ts, 0, "+") && IsUnary(ts[1..], e))
  }

  predicate IsCall(ts: seq<Token>, name: string) {
    |ts| >= 3 && ts[0] == Word(name) && ts[1] == Sign("(") && ts[|ts| - 1] == Sign(")")
  }

  predicate IsNameCall(ts: seq<Token>, name: string, arg: string) {
    ts == [Word(name), Sign("("), Word(arg), Sign(")")]
  }

  ghost predicate IsPair(ts: seq<Token>, a: Expr, b: Expr)
    decreases |ts|, 13
  {
    exists i | Has(ts, i, ",") :: IsExpression(ts[..i], a) && IsExpression(ts[i + 1..], b)
  }

  ghost predicate IsPrimary(ts: seq<Token>, e: Expr)
    decreases |ts|, 0
  {
    || (|ts| >= 2 && Has(ts, 0, "(") && Has(ts, |ts| - 1, ")") && IsExpression(ts[1..|ts| - 1], e))
    || match e
       case Num(n) => ts == [Number(n)]
       case Dot => ts == [Word(".")]
       case Sym(x) => ts == [Word(x)] && x != "."
       case OfName(ADDR, x) => IsNameCall(ts, "ADDR", x)
       case OfName(LOADADDR, x) => IsNameCall(ts, "LOADADDR", x)
       case OfName(SIZEOF, x) => IsNameCall(ts, "SIZEOF", x)
       case OfName(DEFINED, x) => IsNameCall(ts, "DEFINED", x)
       case OfName(ORIGIN, x) => IsNameCall(ts, "ORIGIN", x)
       case OfName(LENGTH, x) => IsNameCall(ts, "LENGTH", x)
       case AlignDot(a) => IsCall(ts, "ALIGN") && IsExpression(ts[2..|ts| - 1], a)
       case OfPair(ALIGN, a, b) => IsCall(ts, "ALIGN") && IsPair(ts[2..|ts| - 1], a, b)
       case OfPair(MAX, a, b) => IsCall(ts, "MAX") && IsPair(ts[2..|ts| - 1], a, b)
       case OfPair(MIN, a, b) => IsCall(ts, "MIN") && IsPair(ts[2..|ts| - 1], a, b)
       case _ => false
  }

  /** The nonterminals by their levels. */
  ghost predicate Phrase(level: nat, ts: seq<Token>, e: Expr) {
    match level
    case 0 => IsExpression(ts, e)
    case 1 => IsLogicalOr(ts, e)
    case 2 => IsLogicalAnd(ts, e)
    case 3 => IsInclusiveOr(ts, e)
    case 4 => IsExclusiveOr(ts, e)
    case 5 => IsAnd(ts, e)
    case 6 => IsEquality(ts, e)
    case 7 => IsRelation(ts, e)
    case 8 => IsShift(ts, e)
    case 9 => IsSum(ts, e)
    case 10 => IsProduct(ts, e)
    case 11 => IsUnary(ts, e)
    case _ => IsPrimary(ts, e)
  }

  lemma Joins(level: nat, ts: seq<Token>, us: seq<Token>, op: BinaryOp, a: Expr, b: Expr)
    requires OpLevel(op) == level && Phrase(level, ts, a) && Phrase(level + 1, us, b)
    ensures Phrase(level, ts + [Sign(OpText(op))] + us, Binary(op, a, b))
  {
    var all := ts + [Sign(OpText(op))] + us;
    assert Has(all, |ts|, OpText(op)) && all[..|ts|] == ts && all[|ts| + 1..] == us;
  }

  lemma Rises(level: nat, ts: seq<Token>, e: Expr)
    requires level <= 11 && Phrase(level + 1, ts, e)
    ensures Phrase(level, ts, e)
  {
  }

  // ---- reading tokens

  lemma AreLetters(c: char)
    ensures IsAlpha(c) <==> IsLetter(c)
    ensures IdentChar(c) <==> NameChar(c)
  {
  }

  lemma OneBlank(s: string, i: nat, ts: seq<Token>, t: string)
    requires IsBlank(s, i) && Lexes(s[i..], ts, t)
    ensures Lexes(s, ts, t)
  {
    var lengths :| Cuts(s[i..], lengths, ts, t);
    var all := [i] + lengths;
    assert all[1..] == lengths && Cuts(s, all, ts, t);
  }

  lemma BlankFirst(s: string, t: string, ts: seq<Token>, u: string)
    requires Lexes(s, [], t) && Lexes(t, ts, u)
    ensures Lexes(s, ts, u)
  {
    LexesOn(s, [], t, ts, u);
    assert [] + ts == ts;
  }

  lemma NoToken(s: string)
    ensures Lexes(s, [], s)
  {
    assert Cuts(s, [], [], s);
  }

  lemma OneToken(s: string, i: nat, a: Token)
    requires 0 < i <= |s| && IsToken(s, i, a)
    ensures Lexes(s, [a], s[i..])
  {
    assert [a][1..] == [] && [i][1..] == [];
    assert Cuts(s[i..], [], [], s[i..]);
    assert Cuts(s, [i], [a], s[i..]);
  }

  lemma {:induction false} CutsOn(s: string, m: seq<nat>, a: seq<Token>, t: string, n: seq<nat>, b: seq<Token>, u: string)
    requires Cuts(s, m, a, t) && Cuts(t, n, b, u)
    ensures Cuts(s, m + n, a + b, u)
    decreases m
  {
    if m == [] {
      assert m + n == n && a + b == b;
    } else {
      var k := m[0];
      assert (m + n)[0] == k && (m + n)[1..] == m[1..] + n;
      if IsBlank(s, k) && Cuts(s[k..], m[1..], a, t) {
        CutsOn(s[k..], m[1..], a, t, n, b, u);
      } else {
        CutsOn(s[k..], m[1..], a[1..], t, n, b, u);
        assert (a + b)[0] == a[0] && (a + b)[1..] == a[1..] + b;
      }
    }
  }

  lemma LexesOn(s: string, a: seq<Token>, t: string, b: seq<Token>, u: string)
    requires Lexes(s, a, t) && Lexes(t, b, u)
    ensures Lexes(s, a + b, u)
  {
    var m :| Cuts(s, m, a, t);
    var n :| Cuts(t, n, b, u);
    CutsOn(s, m, a, t, n, b, u);
  }

  /** The end of a comment. */
  lemma {:induction false} CommentEnds(s: string, t: string) returns (i: nat)
    requires AfterComment(s) == Some(t)
    ensures ClosesComment(s, i) && s[i..] == t && forall j | 2 <= j < i :: !ClosesComment(s, j)
  {
    if s[0] == '*' && s[1] == '/' {
      i := 2;
    } else {
      var k := CommentEnds(s[1..], t);
      i := k + 1;
      forall j | 2 <= j < i
        ensures !ClosesComment(s, j)
      {
        if j > 2 {
          assert !ClosesComment(s[1..], j - 1);
        }
      }
    }
  }

  lemma {:induction false} LineEnds(s: string) returns (i: nat)
    ensures i <= |s| && s[i..] == AfterLine(s) && '\n' !in s[..i] && (i < |s| ==> s[i] == '\n')
  {
    if s == [] || s[0] == '\n' {
      i := 0;
    } else {
      i := LineEnds(s[1..]);
      i := i + 1;
      assert s[..i] == [s[0]] + s[1..][..i - 1];
    }
  }

  lemma LineIsBlank(s: string) returns (i: nat)
    requires s != [] && s[0] == '#'
    ensures IsBlank(s, i) && s[i..] == AfterLine(s[1..])
  {
    i := LineEnds(s[1..]);
    assert s[1..][i..] == s[i + 1..] && s[..i + 1] == [s[0]] + s[1..][..i];
    i := i + 1;
  }

  lemma CommentIsBlank(s: string) returns (i: nat)
    requires |s| >= 2 && s[0] == '/' && s[1] == '*' && AfterComment(s[2..]).Some?
    ensures IsBlank(s, i) && s[i..] == AfterComment(s[2..]).value
  {
    i := CommentEnds(s[2..], AfterComment(s[2..]).value);
    forall j | 4 <= j < i + 2
      ensures !ClosesComment(s, j)
    {
      assert !ClosesComment(s[2..], j - 2);
    }
    i := i + 2;
  }

  /** The blank at the start of a text that SkipSpace shortens. */
  lemma FirstBlank(s: string) returns (i: nat)
    requires SkipSpace(s).Some? && SkipSpace(s) != Some(s)
    ensures IsBlank(s, i) && SkipSpace(s[i..]) == SkipSpace(s)
  {
    if s != [] && IsSpace(s[0]) {
      i := 1;
    } else if |s| >= 2 && s[0] == '/' && s[1] == '*' {
      i := CommentIsBlank(s);
    } else {
      i := LineIsBlank(s);
    }
  }

  lemma {:induction false} SkipsBlanks(s: string)
    requires SkipSpace(s).Some?
    ensures Lexes(s, [], SkipSpace(s).value)
    decreases |s|
  {
    if SkipSpace(s) == Some(s) {
      NoToken(s);
    } else {
      var i := FirstBlank(s);
      SkipsBlanks(s[i..]);
      OneBlank(s, i, [], SkipSpace(s).value);
    }
  }

  // ---- numbers and names

  lemma DigitsAre(c: char, base: pos)
    requires DigitValue(c) < base <= 16
    ensures DigitIs(c, DigitValue(c))
  {
  }

  lemma Push(n: nat, base: pos, d: nat)
    requires d < base
    ensures (n * base + d) % base == d && (n * base + d) / base == n
  {
    ModuloIs(n * base + d, base, n, d);
  }

  /** The text is n so far; the empty text is 0. */
  predicate SoFar(w: string, base: pos, n: nat)
    requires base <= 16
  {
    if w == [] then n == 0 else Notation(w, base, n)
  }

  lemma NotationGrows(w: string, base: pos, n: nat, c: char, m: nat)
    requires base <= 16 && DigitValue(c) < base && SoFar(w, base, n)
    requires m % base == DigitValue(c) && m / base == n && (n == 0 ==> m == DigitValue(c))
    ensures SoFar(w + [c], base, m)
  {
    DigitsAre(c, base);
    assert (w + [c])[..|w|] == w && (w + [c])[|w|] == c;
  }

  lemma {:induction false} DigitRunIs(w: string, s: string, base: pos, acc: nat, n: nat, v: nat)
    requires base <= 16 && SoFar(w, base, acc) && DigitRun(s, base, acc) == (n, v)
    ensures SoFar(w + s[..n], base, v)
    decreases s
  {
    if n == 0 {
      assert w + s[..0] == w;
    } else {
      var m := acc * base + DigitValue(s[0]);
      Push(acc, base, DigitValue(s[0]));
      NotationGrows(w, base, acc, s[0], m);
      DigitRunIs(w + [s[0]], s[1..], base, m, n - 1, v);
      FirstDigit(w, s, n - 1);
    }
  }

  lemma FirstDigit(w: string, s: string, n: nat)
    requires n < |s|
    ensures w + s[..n + 1] == w + [s[0]] + s[1..][..n]
  {
  }

  lemma RunIsNumber(s: string, base: pos, n: nat, v: nat)
    requires base <= 16 && DigitRun(s, base, 0) == (n, v) && n > 0
    ensures Notation(s[..n], base, v)
  {
    DigitRunIs([], s, base, 0, n, v);
    assert [] + s[..n] == s[..n];
  }

  predicate Prefixed(s: string) {
    |s| >= 3 && s[0] == '0' && (s[1] == 'x' || s[1] == 'X') && DigitValue(s[2]) < 16
  }

  lemma PrefixedIs(s: string, hex: bool, v: nat, t: string) returns (i: nat)
    requires UnsignedAt(s, hex) == Some((v, t)) && Prefixed(s)
    ensures 2 < i <= |s| && s[i..] == t && HexPrefix(s[..i]) && Notation(s[..i][2..], 16, v)
  {
    var n := DigitRun(s[2..], 16, 0).0;
    RunIsNumber(s[2..], 16, n, v);
    i := n + 2;
    assert s[..i][2..] == s[2..][..n] && s[2..][n..] == s[i..];
  }

  lemma UnprefixedIs(s: string, hex: bool, v: nat, t: string) returns (i: nat)
    requires UnsignedAt(s, hex) == Some((v, t)) && !Prefixed(s)
    ensures 0 < i <= |s| && s[i..] == t && !HexPrefix(s[..i])
    ensures Notation(s[..i], if hex then 16 else if s[0] == '0' then 8 else 10, v)
  {
    var base := if hex then 16 else if Peek(s) == '0' then 8 else 10;
    i := DigitRun(s, base, 0).0;
    RunIsNumber(s, base, i, v);
    ShortRun(s, base);
  }

  lemma FirstIsDigit(s: string, base: pos, n: nat)
    requires 0 < n <= |s| && base <= 16 && DigitRun(s, base, 0).0 == n
    ensures s[0] != '$'
  {
  }

  /** The length of the number that UnsignedAt reads. */
  lemma UnsignedIs(s: string, hex: bool, v: nat, t: string) returns (i: nat)
    requires UnsignedAt(s, hex) == Some((v, t))
    ensures 0 < i <= |s| && s[i..] == t
    ensures if hex then Hexadecimal(s[..i], v) else Unscaled(s[..i], v)
  {
    if Prefixed(s) {
      i := PrefixedIs(s, hex, v, t);
    } else {
      i := UnprefixedIs(s, hex, v, t);
      var base := if hex then 16 else if s[0] == '0' then 8 else 10;
      FirstIsDigit(s, base, DigitRun(s, base, 0).0);
    }
  }

  /** 0x without a digit behind it is the number 0. */
  lemma ShortRun(s: string, base: pos)
    requires base <= 16
    ensures DigitRun(s, base, 0).0 >= 2 ==> DigitValue(s[0]) < base && DigitValue(s[1]) < base
  {
    if s != [] && DigitValue(s[0]) < base {
      var rest := DigitRun(s[1..], base, 0 * base + DigitValue(s[0])).0;
      assert rest >= 1 ==> DigitValue(s[1..][0]) < base;
    }
  }

  lemma NumberReads(s: string) returns (n: nat)
    requires NumberAt(s).Some?
    ensures NumberAt(s).value.0 == Num(n) && Lexes(s, [Number(n)], NumberAt(s).value.1)
  {
    var hex := Peek(s) == '$';
    var (v, t) := (if hex then UnsignedAt(s[1..], true) else UnsignedAt(s, false)).value;
    var i := UnscaledReads(s, v, t);
    if Peek(t) == 'K' || Peek(t) == 'k' {
      Kilo(s, i, v);
      n := v * 1024;
      i := i + 1;
    } else {
      n := v;
    }
    AreLetters(Peek(s[i..]));
    OneToken(s, i, Number(n));
  }

  lemma UnscaledReads(s: string, v: nat, t: string) returns (i: nat)
    requires (if Peek(s) == '$' then UnsignedAt(s[1..], true) else UnsignedAt(s, false)) == Some((v, t))
    ensures 0 < i <= |s| && s[i..] == t && Unscaled(s[..i], v)
  {
    if Peek(s) == '$' {
      i := UnsignedIs(s[1..], true, v, t);
      assert s[..i + 1][1..] == s[1..][..i] && s[i + 1..] == t;
      i := i + 1;
    } else {
      i := UnsignedIs(s, false, v, t);
    }
  }

  lemma Kilo(s: string, i: nat, v: nat)
    requires i < |s| && Unscaled(s[..i], v) && (s[i] == 'K' || s[i] == 'k')
    ensures IsNumber(s[..i + 1], v * 1024) && s[i..][1..] == s[i + 1..]
  {
    assert s[..i + 1][..i] == s[..i];
    ModuloIs(v * 1024, 1024, v, 0);
  }

  lemma {:induction false} IdentRunIs(s: string)
    ensures forall i | 0 <= i < IdentRun(s) :: IdentChar(s[i])
    ensures !IdentChar(Peek(s[IdentRun(s)..]))
  {
    if s != [] && IdentChar(s[0]) {
      IdentRunIs(s[1..]);
      assert s[1..][IdentRun(s[1..])..] == s[IdentRun(s)..];
      forall i | 0 <= i < IdentRun(s)
        ensures IdentChar(s[i])
      {
        if i > 0 {
          assert IdentChar(s[1..][i - 1]);
        }
      }
    }
  }

  lemma NameReads(s: string)
    requires NameAt(s).Some?
    ensures Lexes(s, [Word(NameAt(s).value.0)], NameAt(s).value.1)
  {
    var t := SkipSpace(s).value;
    var n := IdentRun(t);
    SkipsBlanks(s);
    IdentRunIs(t);
    AreLetters(t[0]);
    AreLetters(Peek(t[n..]));
    forall i | 0 <= i < n
      ensures NameChar(t[..n][i])
    {
      AreLetters(t[i]);
    }
    OneToken(t, n, Word(t[..n]));
    BlankFirst(s, t, [Word(t[..n])], t[n..]);
  }

  lemma AcceptReads(c: char, s: string)
    requires c in "(),?:" && Accept(c, s).Some?
    ensures Lexes(s, [Sign([c])], Accept(c, s).value)
  {
    var t := SkipSpace(s).value;
    SkipsBlanks(s);
    SignReads(c, t);
    BlankFirst(s, t, [Sign([c])], t[1..]);
  }

  lemma SignReads(c: char, t: string)
    requires c in "(),?:-~!+" && t != [] && t[0] == c
    ensures Lexes(t, [Sign([c])], t[1..])
  {
    assert t[..1] == [c];
    OneToken(t, 1, Sign([c]));
  }

  lemma OpReads(op: BinaryOp, t: string)
    requires HasOp(op, t) && SkipSpace(t) == Some(t)
    ensures Lexes(t, [Sign(OpText(op))], t[|OpText(op)|..])
  {
    var n := |OpText(op)|;
    assert t[..n] == OpText(op);
    assert n == 1 ==> Peek(t[1..]) == (if |t| > 1 then t[1] else '\0');
    assert IsSign(OpText(op), Peek(t[n..]));
    OneToken(t, n, Sign(OpText(op)));
  }

  // ---- what the parser accepts

  /** Reading the text has derived the result from these tokens. */
  ghost predicate Derives(level: nat, s: string, ts: seq<Token>, r: Option<(Expr, string)>) {
    r.Some? && Phrase(level, ts, r.value.0) && Lexes(s, ts, r.value.1)
  }

  lemma NameFnIs(name: string, x: string)
    requires NameFnOf(name).Some?
    ensures IsPrimary([Word(name), Sign("("), Word(x), Sign(")")], OfName(NameFnOf(name).value, x))
  {
  }

  lemma Wrapped(us: seq<Token>, e: Expr)
    requires IsExpression(us, e)
    ensures IsPrimary([Sign("(")] + us + [Sign(")")], e)
  {
    var ts := [Sign("(")] + us + [Sign(")")];
    assert ts[1..|ts| - 1] == us;
  }

  lemma AlignIs(us: seq<Token>, a: Expr)
    requires IsExpression(us, a)
    ensures IsPrimary([Word("ALIGN"), Sign("(")] + us + [Sign(")")], AlignDot(a))
  {
    var ts := [Word("ALIGN"), Sign("(")] + us + [Sign(")")];
    assert ts[2..|ts| - 1] == us;
  }

  lemma PairIs(f: PairFn, us: seq<Token>, a: Expr, vs: seq<Token>, b: Expr)
    requires IsExpression(us, a) && IsExpression(vs, b)
    ensures IsPrimary([Word(PairFnText(f)), Sign("(")] + (us + [Sign(",")] + vs) + [Sign(")")], OfPair(f, a, b))
  {
    var all := us + [Sign(",")] + vs;
    assert Has(all, |us|, ",") && all[..|us|] == us && all[|us| + 1..] == vs;
    var ts := [Word(PairFnText(f)), Sign("(")] + all + [Sign(")")];
    assert ts[2..|ts| - 1] == all;
  }

  lemma CondIs(us: seq<Token>, a: Expr, vs: seq<Token>, b: Expr, ws: seq<Token>, c: Expr)
    requires IsLogicalOr(us, a) && IsExpression(vs, b) && IsExpression(ws, c)
    ensures IsExpression(us + [Sign("?")] + vs + [Sign(":")] + ws, Cond(a, b, c))
  {
    var all := us + [Sign("?")] + vs + [Sign(":")] + ws;
    var i, j := |us|, |us| + 1 + |vs|;
    assert Has(all, i, "?") && Has(all, j, ":") && all[..i] == us && all[i + 1..j] == vs && all[j + 1..] == ws;
  }

  lemma PrefixIs(c: char, op: Option<UnaryOp>, us: seq<Token>, e: Expr)
    requires IsUnary(us, e) && c in "-~!+" && op == UnaryOpAt([c])
    ensures IsUnary([Sign([c])] + us, if op.Some? then Unary(op.value, e) else e)
  {
    var ts := [Sign([c])] + us;
    assert ts[1..] == us && Has(ts, 0, [c]);
  }

  /** The arguments of a call and its parenthesis; `name (` stands before them. */
  lemma {:induction false} CallDerives(name: string, s: string) returns (us: seq<Token>)
    requires Call(name, s).Some?
    ensures IsPrimary([Word(name), Sign("(")] + us, Call(name, s).value.0)
    ensures Lexes(s, us, Call(name, s).value.1)
    decreases |s|, 21
  {
    if NameFnOf(name).Some? {
      var (arg, t) := NameAt(s).value;
      NameReads(s);
      AcceptReads(')', t);
      LexesOn(s, [Word(arg)], t, [Sign(")")], Accept(')', t).value);
      us := [Word(arg)] + [Sign(")")];
      NameFnIs(name, arg);
      assert [Word(name), Sign("(")] + us == [Word(name), Sign("("), Word(arg), Sign(")")];
    } else if name == "ALIGN" && Accept(',', Expression(s).value.1).None? {
      var ts := ExpressionDerives(s);
      var t := Expression(s).value.1;
      AcceptReads(')', t);
      LexesOn(s, ts, t, [Sign(")")], Accept(')', t).value);
      us := ts + [Sign(")")];
      AlignIs(ts, Expression(s).value.0);
      Assoc([Word(name), Sign("(")], ts, [Sign(")")]);
    } else {
      us := PairDerives(name, s);
    }
  }

  lemma {:induction false} PairDerives(name: string, s: string) returns (us: seq<Token>)
    requires Call(name, s).Some? && Call(name, s).value.0.OfPair?
    ensures IsPrimary([Word(name), Sign("(")] + us, Call(name, s).value.0)
    ensures Lexes(s, us, Call(name, s).value.1)
    decreases |s|, 20, 1
  {
    var (a, t) := Expression(s).value;
    var t2 := Accept(',', t).value;
    var (b, u) := Expression(t2).value;
    var w := Accept(')', u).value;
    var ts := ExpressionDerives(s);
    AcceptReads(',', t);
    var vs := ExpressionDerives(t2);
    AcceptReads(')', u);
    LexesOn(s, ts, t, [Sign(",")], t2);
    LexesOn(s, ts + [Sign(",")], t2, vs, u);
    LexesOn(s, ts + [Sign(",")] + vs, u, [Sign(")")], w);
    us := ts + [Sign(",")] + vs + [Sign(")")];
    PairIs(Call(name, s).value.0.pf, ts, a, vs, b);
    Assoc([Word(name), Sign("(")], ts + [Sign(",")] + vs, [Sign(")")]);
  }

  lemma {:induction false} PrimaryDerives(s: string) returns (ts: seq<Token>)
    requires Primary(s).Some?
    ensures Derives(12, s, ts, Primary(s))
    decreases |s|, 2
  {
    var t := SkipSpace(s).value;
    SkipsBlanks(s);
    SkipIsDone(s);
    if IsDigit(Peek(t)) || Peek(t) == '$' {
      var n := NumberReads(t);
      ts := [Number(n)];
    } else if Peek(t) == '(' {
      ts := ParenDerives(t);
    } else if Peek(t) == '.' && !(|t| > 1 && IdentChar(t[1])) {
      AreLetters(Peek(t[1..]));
      assert t[..1] == ".";
      OneToken(t, 1, Word("."));
      ts := [Word(".")];
    } else {
      ts := NamedDerives(t);
    }
    BlankFirst(s, t, ts, Primary(s).value.1);
  }

  lemma {:induction false} ParenDerives(t: string) returns (ts: seq<Token>)
    requires Peek(t) == '(' && Expression(t[1..]).Some? && Accept(')', Expression(t[1..]).value.1).Some?
    ensures IsPrimary(ts, Expression(t[1..]).value.0)
    ensures Lexes(t, ts, Accept(')', Expression(t[1..]).value.1).value)
    decreases |t|, 1
  {
    var (e, u) := Expression(t[1..]).value;
    var us := ExpressionDerives(t[1..]);
    SignReads('(', t);
    AcceptReads(')', u);
    LexesOn(t, [Sign("(")], t[1..], us, u);
    LexesOn(t, [Sign("(")] + us, u, [Sign(")")], Accept(')', u).value);
    ts := [Sign("(")] + us + [Sign(")")];
    Wrapped(us, e);
  }

  lemma {:induction false} NamedDerives(s: string) returns (ts: seq<Token>)
    requires NamedAt(s).Some? && (Peek(s) == '.' ==> |s| > 1 && IdentChar(s[1]))
    requires SkipSpace(s) == Some(s)
    ensures Derives(12, s, ts, NamedAt(s))
    decreases |s|, 1
  {
    var (name, u) := NameAt(s).value;
    var v := SkipSpace(u).value;
    NameReads(s);
    SkipsBlanks(u);
    LexesOn(s, [Word(name)], u, [], v);
    assert [Word(name)] + [] == [Word(name)];
    if Peek(v) == '(' {
      SignReads('(', v);
      var us := CallDerives(name, v[1..]);
      LexesOn(s, [Word(name)], v, [Sign("(")], v[1..]);
      assert [Word(name)] + [Sign("(")] == [Word(name), Sign("(")];
      ts := [Word(name), Sign("(")] + us;
      LexesOn(s, [Word(name), Sign("(")], v[1..], us, NamedAt(s).value.1);
    } else {
      ts := [Word(name)];
      NotOnlyDot(s);
    }
  }

  lemma NotOnlyDot(s: string)
    requires s != [] && IdentChar(s[0]) && (s[0] == '.' ==> |s| > 1 && IdentChar(s[1]))
    ensures s[..IdentRun(s)] != "."
  {
    IdentRunIs(s);
    assert s[0] == '.' ==> IdentRun(s) == 1 + IdentRun(s[1..]) && IdentRun(s[1..]) >= 1;
  }

  lemma {:induction false} UnaryDerives(s: string) returns (ts: seq<Token>)
    requires UnaryAt(s).Some?
    ensures Derives(11, s, ts, UnaryAt(s))
    decreases |s|, 3
  {
    var t := SkipSpace(s).value;
    SkipsBlanks(s);
    if UnaryOpAt(t).Some? || Peek(t) == '+' {
      var us := UnaryDerives(t[1..]);
      ts := Prefixes(t, us);
    } else {
      ts := PrimaryDerives(t);
      Rises(11, ts, Primary(t).value.0);
      SkipIsDone(s);
    }
    BlankFirst(s, t, ts, UnaryAt(s).value.1);
  }

  lemma Prefixes(t: string, us: seq<Token>) returns (ts: seq<Token>)
    requires t != [] && t[0] in "-~!+" && Derives(11, t[1..], us, UnaryAt(t[1..]))
    ensures Derives(11, t, ts, UnaryAt(t))
  {
    ts := [Sign([t[0]])] + us;
    SignReads(t[0], t);
    PrefixIs(t[0], UnaryOpAt([t[0]]), us, UnaryAt(t[1..]).value.0);
    LexesOn(t, [Sign([t[0]])], t[1..], us, UnaryAt(t[1..]).value.1);
  }

  lemma {:induction false} BinaryDerives(level: nat, s: string) returns (ts: seq<Token>)
    requires 1 <= level <= 11 && BinaryAt(level, s).Some?
    ensures Derives(level, s, ts, BinaryAt(level, s))
    decreases |s|, 16 - level
  {
    if level == 11 {
      ts := UnaryDerives(s);
    } else {
      var us := BinaryDerives(level + 1, s);
      var (e, t) := BinaryAt(level + 1, s).value;
      Rises(level, us, e);
      ts := TailDerives(level, s, us, e, t);
    }
  }

  lemma Extends(level: nat, start: string, us: seq<Token>, e: Expr, t: string, op: BinaryOp,
                vs: seq<Token>, r: Option<(Expr, string)>) returns (ts: seq<Token>)
    requires Derives(level, start, us, Some((e, t))) && HasOp(op, t) && OpLevel(op) == level && SkipSpace(t) == Some(t)
    requires Derives(level + 1, t[|OpText(op)|..], vs, r)
    ensures Derives(level, start, ts, Some((Binary(op, e, r.value.0), r.value.1)))
  {
    var after := t[|OpText(op)|..];
    OpReads(op, t);
    LexesOn(start, us, t, [Sign(OpText(op))], after);
    LexesOn(start, us + [Sign(OpText(op))], after, vs, r.value.1);
    Joins(level, us, vs, op, e, r.value.0);
    ts := us + [Sign(OpText(op))] + vs;
  }

  lemma Blanks(level: nat, start: string, us: seq<Token>, e: Expr, s: string)
    requires Derives(level, start, us, Some((e, s))) && SkipSpace(s).Some?
    ensures Derives(level, start, us, Some((e, SkipSpace(s).value)))
  {
    SkipsBlanks(s);
    LexesOn(start, us, s, [], SkipSpace(s).value);
    assert us + [] == us;
  }

  /** The loop extends the phrase that has been read. */
  lemma {:induction false} TailDerives(level: nat, start: string, us: seq<Token>, e: Expr, s: string) returns (ts: seq<Token>)
    requires 1 <= level <= 10 && Tail(level, e, s).Some? && Derives(level, start, us, Some((e, s)))
    ensures Derives(level, start, ts, Tail(level, e, s))
    decreases |s|, 16
  {
    var t := SkipSpace(s).value;
    SkipIsDone(s);
    Blanks(level, start, us, e, s);
    var op := FindOp(level, t, TABLE);
    if op.None? {
      ts := us;
    } else {
      var after := t[|OpText(op.value)|..];
      var vs := BinaryDerives(level + 1, after);
      var more := Extends(level, start, us, e, t, op.value, vs, BinaryAt(level + 1, after));
      var (b, u) := BinaryAt(level + 1, after).value;
      ts := TailDerives(level, start, more, Binary(op.value, e, b), u);
    }
  }

  /** Whatever the parser accepts, the grammar derives from the tokens that it read: the tree has the
      grouping and the operators of C. */
  lemma {:induction false} ExpressionDerives(s: string) returns (ts: seq<Token>)
    requires Expression(s).Some?
    ensures Lexes(s, ts, Expression(s).value.1) && IsExpression(ts, Expression(s).value.0)
    decreases |s|, 20, 0
  {
    var us := BinaryDerives(1, s);
    var (e, t) := BinaryAt(1, s).value;
    if Accept('?', t).None? {
      SkipsBlanks(t);
      LexesOn(s, us, t, [], SkipSpace(t).value);
      assert us + [] == us;
      ts := us;
      Rises(0, us, e);
    } else {
      ts := CondDerives(s, us);
    }
  }

  lemma {:induction false} CondDerives(s: string, us: seq<Token>) returns (ts: seq<Token>)
    requires Expression(s).Some? && Derives(1, s, us, BinaryAt(1, s)) && Accept('?', BinaryAt(1, s).value.1).Some?
    ensures Lexes(s, ts, Expression(s).value.1) && IsExpression(ts, Expression(s).value.0)
    decreases |s|, 19
  {
    var (e, t) := BinaryAt(1, s).value;
    var t2 := Accept('?', t).value;
    var (b, u) := Expression(t2).value;
    var u2 := Accept(':', u).value;
    var (c, x) := Expression(u2).value;
    AcceptReads('?', t);
    var vs := ExpressionDerives(t2);
    AcceptReads(':', u);
    var ws := ExpressionDerives(u2);
    LexesOn(s, us, t, [Sign("?")], t2);
    LexesOn(s, us + [Sign("?")], t2, vs, u);
    LexesOn(s, us + [Sign("?")] + vs, u, [Sign(":")], u2);
    LexesOn(s, us + [Sign("?")] + vs + [Sign(":")], u2, ws, x);
    ts := us + [Sign("?")] + vs + [Sign(":")] + ws;
    CondIs(us, e, vs, b, ws, c);
  }
}
