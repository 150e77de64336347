/** The parser accepts every text that the grammar of script expressions derives. */
module GrammarIsParsed {
  import opened Prelude
  import opened ScriptSyntax
  import opened ScriptParser
  import opened ScriptGrammar

  // ---- blanks

  lemma {:induction false} CommentFound(s: string, i: nat)
    requires ClosesComment(s, i) && forall j | 2 <= j < i :: !ClosesComment(s, j)
    ensures AfterComment(s) == Some(s[i..])
  {
    if i > 2 {
      assert !ClosesComment(s, 2);
      forall j | 2 <= j < i - 1
        ensures !ClosesComment(s[1..], j)
      {
        assert !ClosesComment(s, j + 1);
      }
      CommentFound(s[1..], i - 1);
    }
  }

  lemma {:induction false} LineFound(s: string, i: nat)
    requires i <= |s| && '\n' !in s[..i] && (i < |s| ==> s[i] == '\n')
    ensures AfterLine(s) == s[i..]
  {
    if i > 0 {
      assert s[..i][0] == s[0] && s[..i][1..] == s[1..][..i - 1];
      LineFound(s[1..], i - 1);
    }
  }

  lemma BlankSkips(s: string, k: nat)
    requires IsBlank(s, k)
    ensures SkipSpace(s) == SkipSpace(s[k..])
  {
    if k >= 4 && s[0] == '/' {
      forall j | 2 <= j < k - 2
        ensures !ClosesComment(s[2..], j)
      {
        assert !ClosesComment(s, j + 2);
      }
      CommentFound(s[2..], k - 2);
      assert s[2..][k - 2..] == s[k..];
    } else if s[0] == '#' {
      assert s[..k][1..] == s[1..][..k - 1];
      LineFound(s[1..], k - 1);
    }
  }

  lemma {:induction false} CutsBlank(s: string, m: seq<nat>, t: string)
    requires Cuts(s, m, [], t)
    ensures SkipSpace(s) == SkipSpace(t)
    decreases m
  {
    if m != [] {
      BlankSkips(s, m[0]);
      CutsBlank(s[m[0]..], m[1..], t);
    }
  }

  lemma LexesBlank(s: string, t: string)
    requires Lexes(s, [], t)
    ensures SkipSpace(s) == SkipSpace(t)
  {
    var m :| Cuts(s, m, [], t);
    CutsBlank(s, m, t);
  }

  /** Skipping stops behind all blanks, and nowhere else. */
  lemma SkippingIsExact(s: string, t: string)
    ensures SkipSpace(s) == Some(t) <==> Lexes(s, [], t) && SkipSpace(t) == Some(t)
    ensures SkipSpace(t) == Some(t) ==> forall i: nat :: !IsBlank(t, i)
  {
    if SkipSpace(s) == Some(t) {
      SkipsBlanks(s);
      SkipIsDone(s);
    }
    if Lexes(s, [], t) {
      LexesBlank(s, t);
    }
    forall i: nat | IsBlank(t, i)
      ensures SkipSpace(t) != Some(t)
    {
      BlankShortens(t, i);
    }
  }

  lemma BlankShortens(t: string, i: nat)
    requires IsBlank(t, i)
    ensures SkipSpace(t) != Some(t)
  {
    BlankSkips(t, i);
  }

  // ---- cutting the text

  lemma SignStarts(w: string, next: char)
    requires IsSign(w, next)
    ensures w != [] && w[0] in "(),?:+-*/%^~!|&=<>"
    ensures w[0] == '/' ==> |w| == 1 && next != '*'
  {
  }

  lemma TokenStarts(s: string, i: nat, a: Token)
    requires 0 < i <= |s| && IsToken(s, i, a)
    ensures !IsSpace(s[0]) && s[0] != '#'
    ensures s[0] == '/' ==> i == 1 && Peek(s[1..]) != '*'
  {
    assert s[0] == s[..i][0];
    match a
    case Number(n) => NumberStarts(s[..i], n);
    case Sign(x) => SignStarts(x, Peek(s[i..]));
    case Word(x) =>
  }

  lemma TokenSettles(s: string, i: nat, a: Token)
    requires 0 < i <= |s| && IsToken(s, i, a)
    ensures SkipSpace(s) == Some(s)
  {
    TokenStarts(s, i, a);
    assert |s| > 1 ==> Peek(s[1..]) == s[1];
  }

  lemma NumberStarts(w: string, n: nat)
    requires IsNumber(w, n)
    ensures IsDigit(w[0]) || w[0] == '$'
  {
    if Unscaled(w, n) {
      UnscaledStarts(w, n);
    } else {
      UnscaledStarts(w[..|w| - 1], n / 1024);
    }
  }

  lemma {:induction false} NotationStarts(w: string, base: pos, n: nat)
    requires base <= 16 && Notation(w, base, n)
    ensures DigitValue(w[0]) < base
    decreases |w|
  {
    var q, d := LastDigit(w, base, n);
    if |w| > 1 {
      NotationStarts(w[..|w| - 1], base, q);
    }
  }

  lemma UnscaledStarts(w: string, n: nat)
    requires Unscaled(w, n)
    ensures IsDigit(w[0]) || w[0] == '$'
  {
    if w[0] != '$' && w[0] != '0' {
      NotationStarts(w, 10, n);
    }
  }

  lemma {:induction false} CutsFirst(s: string, m: seq<nat>, ts: seq<Token>, t: string) returns (v: string, i: nat)
    requires Cuts(s, m, ts, t) && ts != []
    ensures SkipSpace(s) == Some(v) && 0 < i <= |v| && IsToken(v, i, ts[0]) && Lexes(v[i..], ts[1..], t)
    decreases m
  {
    var k := m[0];
    if IsBlank(s, k) && Cuts(s[k..], m[1..], ts, t) {
      BlankSkips(s, k);
      v, i := CutsFirst(s[k..], m[1..], ts, t);
    } else {
      TokenSettles(s, k, ts[0]);
      v, i := s, k;
    }
  }

  /** The first token of a text. */
  lemma FirstToken(s: string, ts: seq<Token>, t: string) returns (v: string, i: nat)
    requires Lexes(s, ts, t) && ts != []
    ensures SkipSpace(s) == Some(v) && 0 < i <= |v| && IsToken(v, i, ts[0]) && Lexes(v[i..], ts[1..], t)
  {
    var m :| Cuts(s, m, ts, t);
    v, i := CutsFirst(s, m, ts, t);
  }

  lemma {:induction false} CutsSplit(s: string, m: seq<nat>, a: seq<Token>, b: seq<Token>, t: string) returns (u: string, k: nat)
    requires Cuts(s, m, a + b, t)
    ensures k <= |m| && Cuts(s, m[..k], a, u) && Cuts(u, m[k..], b, t)
    decreases m
  {
    if a == [] {
      assert a + b == b && m[0..] == m;
      u, k := s, 0;
    } else {
      var l := m[0];
      if IsBlank(s, l) && Cuts(s[l..], m[1..], a + b, t) {
        u, k := CutsSplit(s[l..], m[1..], a, b, t);
      } else {
        assert (a + b)[0] == a[0] && (a + b)[1..] == a[1..] + b;
        u, k := CutsSplit(s[l..], m[1..], a[1..], b, t);
      }
      k := k + 1;
      assert m[..k][1..] == m[1..][..k - 1] && m[..k][0] == l && m[k..] == m[1..][k - 1..];
    }
  }

  lemma LexesSplit(s: string, a: seq<Token>, b: seq<Token>, t: string) returns (u: string)
    requires Lexes(s, a + b, t)
    ensures Lexes(s, a, u) && Lexes(u, b, t)
  {
    var m :| Cuts(s, m, a + b, t);
    var k;
    u, k := CutsSplit(s, m, a, b, t);
  }

  // ---- numbers and names

  lemma DigitIsUnique(c: char, d: nat)
    requires DigitIs(c, d)
    ensures DigitValue(c) == d
  {
  }

  lemma Quotient(n: nat, base: pos) returns (q: nat, d: nat)
    ensures q == n / base && d == n % base && n == q * base + d && d < base
    ensures n < base ==> q == 0
  {
    q, d := n / base, n % base;
    if n < base {
      ModuloIs(n, base, 0, n);
    }
  }

  /** The number without its last digit, and the last digit. */
  lemma LastDigit(w: string, base: pos, n: nat) returns (q: nat, d: nat)
    requires base <= 16 && Notation(w, base, n)
    ensures n == q * base + d && d == DigitValue(w[|w| - 1]) && d < base
    ensures if |w| == 1 then q == 0 else Notation(w[..|w| - 1], base, q)
  {
    q, d := Quotient(n, base);
    DigitIsUnique(w[|w| - 1], d);
  }

  lemma {:induction false} NotationIsUnique(w: string, base: pos, m: nat, n: nat)
    requires base <= 16 && Notation(w, base, m) && Notation(w, base, n)
    ensures m == n
    decreases |w|
  {
    var q, d := LastDigit(w, base, m);
    var r, e := LastDigit(w, base, n);
    if |w| > 1 {
      NotationIsUnique(w[..|w| - 1], base, q, r);
    }
  }

  lemma {:induction false} NotationDigits(w: string, base: pos, n: nat)
    requires base <= 16 && Notation(w, base, n)
    ensures forall i | 0 <= i < |w| :: DigitValue(w[i]) < base
    decreases |w|
  {
    var q, d := LastDigit(w, base, n);
    if |w| > 1 {
      var v := w[..|w| - 1];
      NotationDigits(v, base, q);
      assert forall i | 0 <= i < |v| :: w[i] == v[i];
    }
  }

  lemma {:induction false} DigitRunLength(w: string, t: string, base: pos, acc: nat)
    requires base <= 16 && (forall i | 0 <= i < |w| :: DigitValue(w[i]) < base) && DigitValue(Peek(t)) >= base
    ensures DigitRun(w + t, base, acc).0 == |w|
  {
    if w == [] {
      assert w + t == t;
    } else {
      assert (w + t)[1..] == w[1..] + t;
      DigitRunLength(w[1..], t, base, acc * base + DigitValue(w[0]));
    }
  }

  lemma NotationIsRead(w: string, t: string, base: pos, n: nat)
    requires base <= 16 && Notation(w, base, n) && DigitValue(Peek(t)) >= base
    ensures DigitRun(w + t, base, 0) == (|w|, n)
  {
    NotationDigits(w, base, n);
    DigitRunLength(w, t, base, 0);
    var v := DigitRun(w + t, base, 0).1;
    DigitRunIs([], w + t, base, 0, |w|, v);
    assert [] + (w + t)[..|w|] == w;
    NotationIsUnique(w, base, v, n);
  }

  /** No digit, and no x of a prefix. */
  predicate EndsDigits(c: char) {
    DigitValue(c) >= 16 && c != 'x' && c != 'X'
  }

  lemma NotationAt(s: string, lo: nat, i: nat, base: pos, n: nat)
    requires lo <= i <= |s| && base <= 16 && Notation(s[lo..i], base, n) && DigitValue(Peek(s[i..])) >= base
    ensures DigitRun(s[lo..], base, 0) == (i - lo, n) && s[lo..][i - lo..] == s[i..]
  {
    NotationIsRead(s[lo..i], s[i..], base, n);
    assert s[lo..i] + s[i..] == s[lo..];
  }

  lemma HexIsRead(s: string, i: nat, v: nat)
    requires i <= |s| && Hexadecimal(s[..i], v) && EndsDigits(Peek(s[i..]))
    ensures UnsignedAt(s, true) == Some((v, s[i..]))
  {
    if HexPrefix(s[..i]) && Notation(s[..i][2..], 16, v) {
      PrefixedIsRead(s, i, true, v);
    } else {
      assert s[0..i] == s[..i] && s[0..] == s;
      NotationDigits(s[..i], 16, v);
      NoPrefix(s, i);
      NotationAt(s, 0, i, 16, v);
    }
  }

  lemma NoPrefix(s: string, i: nat)
    requires 0 < i <= |s| && EndsDigits(Peek(s[i..])) && forall k | 0 <= k < i :: DigitValue(s[..i][k]) < 16
    ensures |s| > 1 ==> s[1] != 'x' && s[1] != 'X'
  {
    if |s| > 1 {
      assert i > 1 ==> s[1] == s[..i][1];
    }
  }

  lemma PrefixedIsRead(s: string, i: nat, hex: bool, v: nat)
    requires i <= |s| && HexPrefix(s[..i]) && Notation(s[..i][2..], 16, v) && EndsDigits(Peek(s[i..]))
    ensures UnsignedAt(s, hex) == Some((v, s[i..]))
  {
    assert s[..i][2..] == s[2..i];
    NotationStarts(s[2..i], 16, v);
    assert s[2] == s[2..i][0];
    NotationAt(s, 2, i, 16, v);
  }

  lemma DollarIsRead(s: string, i: nat, v: nat)
    requires 0 < i <= |s| && s[0] == '$' && Hexadecimal(s[..i][1..], v) && EndsDigits(Peek(s[i..]))
    ensures UnsignedAt(s[1..], true) == Some((v, s[i..]))
  {
    assert s[..i][1..] == s[1..][..i - 1] && s[1..][i - 1..] == s[i..];
    HexIsRead(s[1..], i - 1, v);
  }

  lemma DigitsAreRead(s: string, i: nat, v: nat)
    requires 0 < i <= |s| && Notation(s[..i], if s[0] == '0' then 8 else 10, v) && EndsDigits(Peek(s[i..]))
    ensures UnsignedAt(s, false) == Some((v, s[i..]))
  {
    var base := if s[0] == '0' then 8 else 10;
    assert s[0..i] == s[..i] && s[0..] == s;
    NotationDigits(s[..i], base, v);
    NoPrefix(s, i);
    NotationAt(s, 0, i, base, v);
  }

  lemma UnscaledIsRead(s: string, i: nat, v: nat)
    requires i <= |s| && Unscaled(s[..i], v) && EndsDigits(Peek(s[i..]))
    ensures (if Peek(s) == '$' then UnsignedAt(s[1..], true) else UnsignedAt(s, false)) == Some((v, s[i..]))
  {
    assert s[0] == s[..i][0];
    if s[0] == '$' {
      DollarIsRead(s, i, v);
    } else if HexPrefix(s[..i]) {
      PrefixedIsRead(s, i, false, v);
    } else {
      DigitsAreRead(s, i, v);
    }
  }

  lemma NumberIsRead(s: string, i: nat, n: nat)
    requires 0 < i <= |s| && IsToken(s, i, Number(n))
    ensures NumberAt(s) == Some((Num(n), s[i..]))
  {
    var w := s[..i];
    AreLetters(Peek(s[i..]));
    if Unscaled(w, n) {
      UnscaledIsRead(s, i, n);
    } else {
      assert w[..i - 1] == s[..i - 1] && w[i - 1] == s[i - 1] && s[i - 1..][1..] == s[i..];
      UnscaledIsRead(s, i - 1, n / 1024);
    }
  }

  lemma {:induction false} IdentRunLength(x: string, t: string)
    requires (forall i | 0 <= i < |x| :: NameChar(x[i])) && !NameChar(Peek(t))
    ensures IdentRun(x + t) == |x|
  {
    AreLetters(Peek(t));
    if x == [] {
      assert x + t == t;
    } else {
      AreLetters(x[0]);
      assert (x + t)[1..] == x[1..] + t;
      IdentRunLength(x[1..], t);
    }
  }

  lemma NameIsRead(s: string, v: string, i: nat, x: string)
    requires SkipSpace(s) == Some(v) && 0 < i <= |v| && IsToken(v, i, Word(x))
    ensures NameAt(s) == Some((x, v[i..]))
  {
    assert v[..i] + v[i..] == v && x[0] == v[0];
    AreLetters(v[0]);
    IdentRunLength(x, v[i..]);
  }

  // ---- operators

  lemma OneOp(a: BinaryOp, b: BinaryOp, s: string)
    requires HasOp(a, s) && HasOp(b, s)
    ensures a == b
  {
    assert OpText(a)[0] == s[0] && OpText(b)[0] == s[0];
    assert |OpText(a)| == 2 ==> OpText(a)[1] == s[1];
    assert |OpText(b)| == 2 ==> OpText(b)[1] == s[1];
  }

  lemma OpIsThere(op: BinaryOp, v: string, i: nat)
    requires 0 < i <= |v| && IsToken(v, i, Sign(OpText(op)))
    ensures i == |OpText(op)| && HasOp(op, v) && v[0] != '('
  {
    assert v[..i] == OpText(op) && v[0] == OpText(op)[0];
    assert |v| > 1 ==> Peek(v[1..]) == v[1];
  }

  lemma OpIsRead(op: BinaryOp, v: string, i: nat)
    requires 0 < i <= |v| && IsToken(v, i, Sign(OpText(op)))
    ensures i == |OpText(op)| && Settled(v) && NoOpAbove(OpLevel(op), v)
    ensures FindOp(OpLevel(op), v, TABLE) == Some(op)
  {
    OpIsThere(op, v, i);
    TokenSettles(v, i, Sign(OpText(op)));
    OnlyOneOp(op, v);
  }

  lemma OnlyOneOp(op: BinaryOp, v: string)
    requires HasOp(op, v)
    ensures NoOpAbove(OpLevel(op), v) && FindOp(OpLevel(op), v, TABLE) == Some(op)
  {
    TableHasAll(op);
    forall other: BinaryOp | HasOp(other, v)
      ensures other == op
    {
      OneOp(op, other, v);
    }
  }

  lemma Splits(level: nat, ts: seq<Token>, e: Expr) returns (i: nat)
    requires 1 <= level <= 10 && Phrase(level, ts, e) && !Phrase(level + 1, ts, e)
    ensures e.Binary? && OpLevel(e.bop) == level && Has(ts, i, OpText(e.bop))
    ensures Phrase(level, ts[..i], e.a) && Phrase(level + 1, ts[i + 1..], e.b)
  {
    i :| Has(ts, i, OpText(e.bop)) && Phrase(level, ts[..i], e.a) && Phrase(level + 1, ts[i + 1..], e.b);
  }

  // ---- reading

  /** The tokens are read from s, and then blanks; the rest is left. */
  ghost predicate Reads(s: string, ts: seq<Token>, rest: string) {
    exists t :: Lexes(s, ts, t) && SkipSpace(t) == Some(rest)
  }

  lemma ReadsNone(s: string, rest: string)
    requires Reads(s, [], rest)
    ensures SkipSpace(s) == Some(rest)
  {
    var t :| Lexes(s, [], t) && SkipSpace(t) == Some(rest);
    LexesBlank(s, t);
  }

  lemma ReadsFirst(s: string, ts: seq<Token>, rest: string) returns (v: string, i: nat)
    requires Reads(s, ts, rest) && ts != []
    ensures SkipSpace(s) == Some(v) && 0 < i <= |v| && IsToken(v, i, ts[0]) && Reads(v[i..], ts[1..], rest)
    ensures SkipSpace(v) == Some(v)
  {
    var t :| Lexes(s, ts, t) && SkipSpace(t) == Some(rest);
    v, i := FirstToken(s, ts, t);
    SkipIsDone(s);
  }

  lemma ReadsOne(s: string, a: Token, rest: string) returns (v: string, i: nat)
    requires Reads(s, [a], rest)
    ensures SkipSpace(s) == Some(v) && 0 < i <= |v| && IsToken(v, i, a) && SkipSpace(v[i..]) == Some(rest)
    ensures SkipSpace(v) == Some(v)
  {
    v, i := ReadsFirst(s, [a], rest);
    assert [a][1..] == [];
    ReadsNone(v[i..], rest);
  }

  lemma ReadsSplit(s: string, ts: seq<Token>, k: nat, rest: string) returns (v: string, i: nat)
    requires Reads(s, ts, rest) && k < |ts|
    ensures Reads(s, ts[..k], v) && 0 < i <= |v| && IsToken(v, i, ts[k]) && Reads(v[i..], ts[k + 1..], rest)
  {
    var t :| Lexes(s, ts, t) && SkipSpace(t) == Some(rest);
    assert ts == ts[..k] + ts[k..];
    var u := LexesSplit(s, ts[..k], ts[k..], t);
    v, i := FirstToken(u, ts[k..], t);
    assert ts[k..][1..] == ts[k + 1..];
  }

  /** One character of punctuation is next. */
  predicate Next(c: char, v: string) {
    v != [] && v[0] == c && SkipSpace(v) == Some(v)
  }

  lemma MarkIsRead(c: char, v: string, i: nat)
    requires 0 < i <= |v| && IsToken(v, i, Sign([c]))
    ensures i == 1 && Next(c, v)
  {
    assert v[..i] == [c];
    TokenSettles(v, i, Sign([c]));
  }

  // ---- primaries

  lemma NumIsParsed(s: string, n: nat, rest: string)
    requires Reads(s, [Number(n)], rest)
    ensures Gives(Primary(s), Num(n), rest)
  {
    var v, i := ReadsOne(s, Number(n), rest);
    assert v[0] == v[..i][0];
    NumberStarts(v[..i], n);
    NumberIsRead(v, i, n);
  }

  lemma DotIsParsed(s: string, rest: string)
    requires Reads(s, [Word(".")], rest)
    ensures Gives(Primary(s), Dot, rest)
  {
    var v, i := ReadsOne(s, Word("."), rest);
    assert v[..i] == ".";
    assert v[0] == '.';
    AreLetters(Peek(v[1..]));
  }

  /** A name leads the parser to NamedAt. */
  lemma NameLeads(s: string, v: string, i: nat, x: string)
    requires SkipSpace(s) == Some(v) && SkipSpace(v) == Some(v) && 0 < i <= |v| && IsToken(v, i, Word(x)) && x != "."
    ensures Primary(s) == NamedAt(v)
  {
    assert x[0] == v[0];
    if v[0] == '.' && i > 1 {
      assert x[1] == v[1];
      AreLetters(v[1]);
    }
  }

  lemma SymIsParsed(s: string, x: string, rest: string)
    requires Reads(s, [Word(x)], rest) && x != "." && Settled(rest)
    ensures Gives(Primary(s), Sym(x), rest)
  {
    var v, i := ReadsOne(s, Word(x), rest);
    NameLeads(s, v, i, x);
    NameIsRead(v, v, i, x);
    SkipIsDone(v[i..]);
  }

  /** A call: the parser comes to its arguments, which are followed by a parenthesis. */
  lemma CallIsReached(s: string, ts: seq<Token>, name: string, rest: string) returns (t: string, v: string)
    requires IsCall(ts, name) && Reads(s, ts, rest) && name != "."
    ensures Primary(s) == Call(name, t) && Reads(t, ts[2..|ts| - 1], v)
    ensures Next(')', v) && SkipSpace(v[1..]) == Some(rest)
  {
    var w, i := ReadsFirst(s, ts, rest);
    NameLeads(s, w, i, name);
    NameIsRead(w, w, i, name);
    var p, k := ReadsFirst(w[i..], ts[1..], rest);
    MarkIsRead('(', p, k);
    t := p[1..];
    var us := ts[1..][1..];
    var j;
    v, j := ReadsSplit(t, us, |us| - 1, rest);
    assert us[..|us| - 1] == ts[2..|ts| - 1] && us[|us| - 1] == Sign([')']) && us[|us| - 1 + 1..] == [];
    MarkIsRead(')', v, j);
    ReadsNone(v[1..], rest);
  }

  lemma NameCallIsParsed(s: string, f: NameFn, x: string, rest: string)
    requires Reads(s, [Word(NameFnText(f)), Sign("("), Word(x), Sign(")")], rest)
    ensures Gives(Primary(s), OfName(f, x), rest)
  {
    var ts := [Word(NameFnText(f)), Sign("("), Word(x), Sign(")")];
    CommandNames(f, MAX);
    var t, v := CallIsReached(s, ts, NameFnText(f), rest);
    assert ts[2..|ts| - 1] == [Word(x)];
    var w, i := ReadsOne(t, Word(x), v);
    NameIsRead(t, w, i, x);
    CallOfName(f, t, x, w[i..], v[1..]);
  }

  lemma AcceptsNext(c: char, u: string, v: string)
    requires SkipSpace(u) == Some(v) && Next(c, v)
    ensures Accept(c, u) == Some(v[1..]) && forall d: char | d != c :: Accept(d, u).None?
  {
  }

  lemma {:induction false} AlignIsParsed(s: string, ts: seq<Token>, a: Expr, rest: string)
    requires IsCall(ts, "ALIGN") && IsExpression(ts[2..|ts| - 1], a) && Reads(s, ts, rest)
    ensures Gives(Primary(s), AlignDot(a), rest)
    decreases |ts|, 0, 0
  {
    var t, v := CallIsReached(s, ts, "ALIGN", rest);
    ExpressionIsParsed(t, ts[2..|ts| - 1], a, v);
    AcceptsNext(')', Expression(t).value.1, v);
    CommandNames(ADDR, ALIGN);
  }

  lemma {:induction false} PairIsParsed(s: string, ts: seq<Token>, f: PairFn, a: Expr, b: Expr, rest: string)
    requires IsCall(ts, PairFnText(f)) && IsPair(ts[2..|ts| - 1], a, b) && Reads(s, ts, rest)
    ensures Gives(Primary(s), OfPair(f, a, b), rest)
    decreases |ts|, 0, 0
  {
    CommandNames(ADDR, f);
    PairNames(f);
    var t, v := CallIsReached(s, ts, PairFnText(f), rest);
    var us := ts[2..|ts| - 1];
    var i :| Has(us, i, ",") && IsExpression(us[..i], a) && IsExpression(us[i + 1..], b);
    var w, k := ReadsSplit(t, us, i, v);
    MarkIsRead(',', w, k);
    ExpressionIsParsed(t, us[..i], a, w);
    ExpressionIsParsed(w[1..], us[i + 1..], b, v);
    AcceptsNext(',', Expression(t).value.1, w);
    AcceptsNext(')', Expression(w[1..]).value.1, v);
  }

  lemma {:induction false} ParenIsParsed(s: string, ts: seq<Token>, e: Expr, rest: string)
    requires |ts| >= 2 && Has(ts, 0, "(") && Has(ts, |ts| - 1, ")") && IsExpression(ts[1..|ts| - 1], e)
    requires Reads(s, ts, rest)
    ensures Gives(Primary(s), e, rest)
    decreases |ts|, 0, 0
  {
    var w, i := ReadsFirst(s, ts, rest);
    MarkIsRead('(', w, i);
    var us := ts[1..];
    var v, k := ReadsSplit(w[1..], us, |us| - 1, rest);
    assert us[..|us| - 1] == ts[1..|ts| - 1] && us[|us| - 1 + 1..] == [];
    MarkIsRead(')', v, k);
    ReadsNone(v[1..], rest);
    ExpressionIsParsed(w[1..], ts[1..|ts| - 1], e, v);
    AcceptsNext(')', Expression(w[1..]).value.1, v);
  }

  lemma {:induction false} PrimaryIsParsed(s: string, ts: seq<Token>, e: Expr, rest: string)
    requires IsPrimary(ts, e) && Reads(s, ts, rest) && Settled(rest)
    ensures Gives(Primary(s), e, rest)
    decreases |ts|, 0, 1
  {
    if |ts| >= 2 && Has(ts, 0, "(") && Has(ts, |ts| - 1, ")") && IsExpression(ts[1..|ts| - 1], e) {
      ParenIsParsed(s, ts, e, rest);
    } else if e.Num? {
      NumIsParsed(s, e.n, rest);
    } else if e.Dot? {
      DotIsParsed(s, rest);
    } else if e.Sym? {
      SymIsParsed(s, e.name, rest);
    } else if e.OfName? {
      NameCallIsParsed(s, e.nf, e.arg, rest);
    } else if e.AlignDot? {
      AlignIsParsed(s, ts, e.a, rest);
    } else {
      PairIsParsed(s, ts, e.pf, e.a, e.b, rest);
    }
  }

  // ---- unary and binary operators

  lemma PrimaryStarts(ts: seq<Token>, e: Expr, v: string, i: nat)
    requires IsPrimary(ts, e) && 0 < i <= |v| && IsToken(v, i, ts[0])
    ensures UnaryOpAt(v).None? && Peek(v) != '+'
  {
    assert v[0] == v[..i][0];
    if ts[0].Number? {
      NumberStarts(v[..i], ts[0].n);
    } else if ts[0].Sign? {
      assert ts[0] == Sign("(");
    }
  }

  lemma SignIsPrefix(ts: seq<Token>, e: Expr) returns (c: char, a: Expr)
    requires IsUnary(ts, e) && !IsPrimary(ts, e)
    ensures c in "-~!+" && ts != [] && ts[0] == Sign([c]) && IsUnary(ts[1..], a)
    ensures e == if UnaryOpAt([c]).Some? then Unary(UnaryOpAt([c]).value, a) else a
  {
    if Has(ts, 0, "+") && IsUnary(ts[1..], e) {
      c, a := '+', e;
    } else {
      c := if e.uop == Neg then '-' else if e.uop == Compl then '~' else '!';
      a := e.a;
    }
  }

  lemma {:induction false} UnaryIsParsed(s: string, ts: seq<Token>, e: Expr, rest: string)
    requires IsUnary(ts, e) && Reads(s, ts, rest) && Settled(rest)
    ensures Gives(UnaryAt(s), e, rest)
    decreases |ts|, 1, 0
  {
    if IsPrimary(ts, e) {
      PrimaryIsParsed(s, ts, e, rest);
      PrimaryIsUnary(s, ts, e, rest);
    } else {
      var c, a := SignIsPrefix(ts, e);
      var v, i := ReadsFirst(s, ts, rest);
      MarkIsRead(c, v, i);
      UnaryIsParsed(v[1..], ts[1..], a, rest);
      PrefixIsParsed(s, v, c, a, rest);
    }
  }

  lemma PrimaryIsUnary(s: string, ts: seq<Token>, e: Expr, rest: string)
    requires IsPrimary(ts, e) && Reads(s, ts, rest)
    ensures Primary(s) == UnaryAt(s)
  {
    var v, i := ReadsFirst(s, ts, rest);
    PrimaryStarts(ts, e, v, i);
  }

  lemma PrefixIsParsed(s: string, v: string, c: char, a: Expr, rest: string)
    requires SkipSpace(s) == Some(v) && Next(c, v) && c in "-~!+" && Gives(UnaryAt(v[1..]), a, rest)
    ensures Gives(UnaryAt(s), if UnaryOpAt([c]).Some? then Unary(UnaryOpAt([c]).value, a) else a, rest)
  {
  }

  lemma {:induction false} BinaryIsParsed(level: nat, s: string, ts: seq<Token>, e: Expr, rest: string)
    requires 1 <= level <= 10 && Phrase(level, ts, e) && Reads(s, ts, rest)
    requires Settled(rest) && NoOpAbove(level, rest)
    ensures BinaryAt(level, s) == Tail(level, e, rest)
    decreases |ts|, 2 * (12 - level) + 1, 0
  {
    if Phrase(level + 1, ts, e) {
      OperandIsParsed(level, s, ts, e, rest);
      TailSkips(level, e, BinaryAt(level + 1, s).value.1, rest);
    } else {
      var i := Splits(level, ts, e);
      ChainIsParsed(level, s, ts, i, e, rest);
    }
  }

  lemma {:induction false} ChainIsParsed(level: nat, s: string, ts: seq<Token>, i: nat, e: Expr, rest: string)
    requires 1 <= level <= 10 && e.Binary? && OpLevel(e.bop) == level && Has(ts, i, OpText(e.bop))
    requires Phrase(level, ts[..i], e.a) && Phrase(level + 1, ts[i + 1..], e.b)
    requires Reads(s, ts, rest) && Settled(rest) && NoOpAbove(level, rest)
    ensures BinaryAt(level, s) == Tail(level, e, rest)
    decreases |ts|, 2, 0
  {
    var v, k := ReadsSplit(s, ts, i, rest);
    OpIsRead(e.bop, v, k);
    BinaryIsParsed(level, s, ts[..i], e.a, v);
    OperandIsParsed(level, v[k..], ts[i + 1..], e.b, rest);
    OpJoins(level, e, v, k, rest);
  }

  lemma OpJoins(level: nat, e: Expr, v: string, k: nat, rest: string)
    requires e.Binary? && k == |OpText(e.bop)| <= |v| && Settled(v) && FindOp(level, v, TABLE) == Some(e.bop)
    requires Gives(BinaryAt(level + 1, v[k..]), e.b, rest) && Settled(rest)
    ensures Tail(level, e.a, v) == Tail(level, e, rest)
  {
    SkipOne(v);
    ChainTail(level, e.bop, e.a, v, e.b, BinaryAt(level + 1, v[k..]).value.1, rest);
  }

  lemma {:induction false} OperandIsParsed(level: nat, s: string, ts: seq<Token>, e: Expr, rest: string)
    requires 1 <= level <= 10 && Phrase(level + 1, ts, e) && Reads(s, ts, rest)
    requires Settled(rest) && NoOpAbove(level, rest)
    ensures Gives(BinaryAt(level + 1, s), e, rest)
    decreases |ts|, 2 * (12 - level), 0
  {
    if level == 10 {
      LastIsParsed(s, ts, e, rest);
    } else {
      InnerIsParsed(level + 1, s, ts, e, rest);
    }
  }

  lemma {:induction false} InnerIsParsed(level: nat, s: string, ts: seq<Token>, e: Expr, rest: string)
    requires 2 <= level <= 10 && Phrase(level, ts, e) && Reads(s, ts, rest)
    requires Settled(rest) && NoOpAbove(level - 1, rest)
    ensures Gives(BinaryAt(level, s), e, rest)
    decreases |ts|, 2 * (12 - level) + 1, 1
  {
    HigherToo(level - 1, rest);
    BinaryIsParsed(level, s, ts, e, rest);
    LevelEnds(level, s, e, rest);
  }

  lemma {:induction false} LastIsParsed(s: string, ts: seq<Token>, e: Expr, rest: string)
    requires Phrase(11, ts, e) && Reads(s, ts, rest) && Settled(rest)
    ensures Gives(BinaryAt(11, s), e, rest)
    decreases |ts|, 2, 0
  {
    UnaryIsParsed(s, ts, e, rest);
  }

  lemma HigherToo(level: nat, rest: string)
    requires NoOpAbove(level, rest)
    ensures NoOpAbove(level + 1, rest)
  {
  }

  lemma LevelEnds(level: nat, s: string, e: Expr, rest: string)
    requires 1 <= level <= 10 && BinaryAt(level, s) == Tail(level, e, rest) && Settled(rest) && NoOpAbove(level - 1, rest)
    ensures Gives(BinaryAt(level, s), e, rest)
  {
    FindNothing(level, rest, TABLE);
    SkipOne(rest);
  }

  lemma {:induction false} TopIsParsed(s: string, ts: seq<Token>, e: Expr, rest: string)
    requires IsLogicalOr(ts, e) && Reads(s, ts, rest) && Quiet(rest)
    ensures Gives(BinaryAt(1, s), e, rest)
    decreases |ts|, 30, 0
  {
    QuietHasNoOp(rest);
    BinaryIsParsed(1, s, ts, e, rest);
    FindNothing(1, rest, TABLE);
    SkipOne(rest);
  }

  /** Every text that the grammar derives is accepted, with the tree that the grammar gives it. */
  lemma {:induction false} ExpressionIsParsed(s: string, ts: seq<Token>, e: Expr, rest: string)
    requires IsExpression(ts, e) && Reads(s, ts, rest) && Ends(rest)
    ensures Gives(Expression(s), e, rest)
    decreases |ts|, 31, 0
  {
    if IsLogicalOr(ts, e) {
      TopIsParsed(s, ts, e, rest);
      SkipIsDone(BinaryAt(1, s).value.1);
    } else {
      CondIsParsed(s, ts, e, rest);
    }
  }

  lemma {:induction false} CondIsParsed(s: string, ts: seq<Token>, e: Expr, rest: string)
    requires IsExpression(ts, e) && !IsLogicalOr(ts, e) && Reads(s, ts, rest) && Ends(rest)
    ensures Gives(Expression(s), e, rest)
    decreases |ts|, 30, 0
  {
    var i, j :| Has(ts, i, "?") && Has(ts, j, ":") && i < j
      && IsLogicalOr(ts[..i], e.a) && IsExpression(ts[i + 1..j], e.b) && IsExpression(ts[j + 1..], e.c);
    var v, w := CondIsRead(s, ts, i, j, rest);
    TopIsParsed(s, ts[..i], e.a, v);
    ExpressionIsParsed(v[1..], ts[i + 1..j], e.b, w);
    ExpressionIsParsed(w[1..], ts[j + 1..], e.c, rest);
    CondIsJoined(s, v, w, e);
  }

  lemma CondIsRead(s: string, ts: seq<Token>, i: nat, j: nat, rest: string) returns (v: string, w: string)
    requires Has(ts, i, "?") && Has(ts, j, ":") && i < j && Reads(s, ts, rest)
    ensures Reads(s, ts[..i], v) && Next('?', v) && Reads(v[1..], ts[i + 1..j], w)
    ensures Next(':', w) && Reads(w[1..], ts[j + 1..], rest)
  {
    var k, l;
    v, k := ReadsSplit(s, ts, i, rest);
    MarkIsRead('?', v, k);
    var us := ts[i + 1..];
    w, l := ReadsSplit(v[1..], us, j - i - 1, rest);
    assert us[..j - i - 1] == ts[i + 1..j] && us[j - i - 1 + 1..] == ts[j + 1..];
    MarkIsRead(':', w, l);
  }

  lemma CondIsJoined(s: string, v: string, w: string, e: Expr)
    requires e.Cond? && Next('?', v) && Next(':', w)
    requires Gives(BinaryAt(1, s), e.a, v) && Gives(Expression(v[1..]), e.b, w)
    requires Expression(w[1..]).Some? && Expression(w[1..]).value.0 == e.c
    ensures Expression(s) == Some((e, Expression(w[1..]).value.1))
  {
    AcceptsNext('?', BinaryAt(1, s).value.1, v);
    AcceptsNext(':', Expression(v[1..]).value.1, w);
    CondStep(s, e.a, v[1..], e.b, w[1..], e.c, Expression(w[1..]).value.1);
  }

  /** The parser accepts exactly what the grammar derives: in front of a text that ends expressions it
      gives tree e if and only if some reading of the text derives e. */
  lemma ParserIsGrammar(s: string, e: Expr, rest: string)
    requires Ends(rest)
    ensures Gives(Expression(s), e, rest) <==> exists ts :: Reads(s, ts, rest) && IsExpression(ts, e)
  {
    if Gives(Expression(s), e, rest) {
      var ts := ExpressionDerives(s);
      assert Reads(s, ts, rest);
    }
    if ts :| Reads(s, ts, rest) && IsExpression(ts, e) {
      ExpressionIsParsed(s, ts, e, rest);
    }
  }
}
