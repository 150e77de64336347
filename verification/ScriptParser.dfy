/** The expression parser of ld/script.c, character by character, and a printer
    that writes only the parentheses that precedence needs.  Parsing what the
    printer wrote gives the tree back. */
module ScriptParser {
  import opened Prelude
  import opened ScriptSyntax

  // ---- characters

  predicate IsSpace(c: char) {
    c == ' ' || '\t' <= c <= '\r'
  }

  predicate IsDigit(c: char) {
    '0' <= c <= '9'
  }

  predicate IsAlpha(c: char) {
    'a' <= c <= 'z' || 'A' <= c <= 'Z'
  }

  predicate IdentChar(c: char) {
    IsAlpha(c) || IsDigit(c) || c == '_' || c == '.' || c == '$'
  }

  /** The character at the text pointer; '\0' at the end. */
  function Peek(s: string): char {
    if s == [] then '\0' else s[0]
  }

  /** The text after the end of a comment; None if it does not end. */
  function AfterComment(s: string): (r: Option<string>)
    ensures r.Some? ==> |r.value| < |s|
  {
    if |s| < 2 then None
    else if s[0] == '*' && s[1] == '/' then Some(s[2..])
    else AfterComment(s[1..])
  }

  function AfterLine(s: string): (r: string)
    ensures |r| <= |s|
  {
    if s == [] || s[0] == '\n' then s else AfterLine(s[1..])
  }

  function SkipSpace(s: string): (r: Option<string>)
    ensures r.Some? ==> |r.value| <= |s|
    decreases |s|
  {
    if s != [] && IsSpace(s[0]) then SkipSpace(s[1..])
    else if |s| >= 2 && s[0] == '/' && s[1] == '*' then
      var t :- AfterComment(s[2..]);
      SkipSpace(t)
    else if s != [] && s[0] == '#' then SkipSpace(AfterLine(s[1..]))
    else Some(s)
  }

  /** Is punctuation c next?  If so, the text after it. */
  function Accept(c: char, s: string): (r: Option<string>)
    ensures r.Some? ==> |r.value| < |s|
  {
    var t :- SkipSpace(s);
    if t != [] && t[0] == c then Some(t[1..]) else None
  }

  // ---- names and numbers

  function IdentRun(s: string): (n: nat)
    ensures n <= |s|
  {
    if s != [] && IdentChar(s[0]) then 1 + IdentRun(s[1..]) else 0
  }

  function NameAt(s: string): (r: Option<(string, string)>)
    ensures r.Some? ==> |r.value.1| < |s|
  {
    var t :- SkipSpace(s);
    if t != [] && (IsAlpha(t[0]) || t[0] == '_' || t[0] == '.')
    then Some((t[..IdentRun(t)], t[IdentRun(t)..]))
    else None
  }

  function DigitValue(c: char): nat {
    if IsDigit(c) then (c - '0') as nat
    else if 'a' <= c <= 'f' then (c - 'a') as nat + 10
    else if 'A' <= c <= 'F' then (c - 'A') as nat + 10
    else 99
  }

  /** The digits of a base at the start of the text: how many, and their value. */
  function DigitRun(s: string, base: nat, acc: nat): (r: (nat, nat))
    ensures r.0 <= |s|
  {
    if s != [] && DigitValue(s[0]) < base then
      var (n, v) := DigitRun(s[1..], base, acc * base + DigitValue(s[0]));
      (1 + n, v)
    else (0, acc)
  }

  /** strtoul, with base 16 after '$' and otherwise the base that the prefix says:
      the value and the text after it. */
  function UnsignedAt(s: string, hex: bool): (r: Option<(nat, string)>)
    ensures r.Some? ==> |r.value.1| < |s|
  {
    var prefixed := |s| >= 3 && s[0] == '0' && (s[1] == 'x' || s[1] == 'X') && DigitValue(s[2]) < 16;
    var digits := if prefixed then s[2..] else s;
    var base := if hex || prefixed then 16 else if Peek(s) == '0' then 8 else 10;
    var (n, v) := DigitRun(digits, base, 0);
    if n == 0 then None else Some((v, digits[n..]))
  }

  function NumberAt(s: string): (r: Option<(Expr, string)>)
    ensures r.Some? ==> |r.value.1| < |s|
  {
    var (v, t) :- if Peek(s) == '$' then UnsignedAt(s[1..], true) else UnsignedAt(s, false);
    var kilo := Peek(t) == 'K' || Peek(t) == 'k';
    var u := if kilo then t[1..] else t;
    if IdentChar(Peek(u)) then None else Some((Num(if kilo then v * 1024 else v), u))
  }

  // ---- operators

  function OpText(op: BinaryOp): (s: string)
    ensures 1 <= |s| <= 2
  {
    match op
    case LOr => "||" case LAnd => "&&" case BitOr => "|" case BitXor => "^" case BitAnd => "&"
    case Eq => "==" case Ne => "!=" case Le => "<=" case Ge => ">=" case Shl => "<<" case Shr => ">>"
    case Lt => "<" case Gt => ">" case Add => "+" case Sub => "-" case Mul => "*" case Div => "/" case Mod => "%"
  }

  function OpLevel(op: BinaryOp): (l: nat)
    ensures 1 <= l <= 10
  {
    match op
    case LOr => 1 case LAnd => 2 case BitOr => 3 case BitXor => 4 case BitAnd => 5
    case Eq => 6 case Ne => 6 case Le => 7 case Ge => 7 case Lt => 7 case Gt => 7
    case Shl => 8 case Shr => 8 case Add => 9 case Sub => 9 case Mul => 10 case Div => 10 case Mod => 10
  }

  /** The operator is at the start of the text, and is not part of a longer one. */
  predicate HasOp(op: BinaryOp, s: string) {
    && OpText(op) <= s
    && !(|OpText(op)| == 1 && |s| > 1 && (s[1] == s[0] || s[1] == '=') && s[0] in "|&<>")
  }

  /** The operators in the order of the parser's table. */
  const TABLE := [LOr, LAnd, BitOr, BitXor, BitAnd, Eq, Ne, Le, Ge, Shl, Shr, Lt, Gt, Add, Sub, Mul, Div, Mod]

  function FindOp(level: nat, s: string, ops: seq<BinaryOp>): (r: Option<BinaryOp>)
    ensures r.Some? ==> r.value in ops && OpLevel(r.value) == level && HasOp(r.value, s)
    ensures r.None? ==> forall op <- ops :: !(OpLevel(op) == level && HasOp(op, s))
  {
    if ops == [] then None
    else if OpLevel(ops[0]) == level && HasOp(ops[0], s) then Some(ops[0])
    else FindOp(level, s, ops[1..])
  }

  // ---- the parser

  function NameFnOf(name: string): Option<NameFn> {
    if name == "ADDR" then Some(ADDR)
    else if name == "LOADADDR" then Some(LOADADDR)
    else if name == "SIZEOF" then Some(SIZEOF)
    else if name == "DEFINED" then Some(DEFINED)
    else if name == "ORIGIN" then Some(ORIGIN)
    else if name == "LENGTH" then Some(LENGTH)
    else None
  }

  function Call(name: string, s: string): (r: Option<(Expr, string)>)
    ensures r.Some? ==> |r.value.1| < |s|
    decreases |s|, 21
  {
    if NameFnOf(name).Some? then
      var (arg, t) :- NameAt(s);
      var u :- Accept(')', t);
      Some((OfName(NameFnOf(name).value, arg), u))
    else if name == "ALIGN" then
      var (a, t) :- Expression(s);
      if Accept(',', t).Some? then
        var (b, u) :- Expression(Accept(',', t).value);
        var w :- Accept(')', u);
        Some((OfPair(ALIGN, a, b), w))
      else
        var w :- Accept(')', t);
        Some((AlignDot(a), w))
    else if name == "MAX" || name == "MIN" then
      var (a, t) :- Expression(s);
      var t2 :- Accept(',', t);
      var (b, u) :- Expression(t2);
      var w :- Accept(')', u);
      Some((OfPair(if name == "MAX" then MAX else MIN, a, b), w))
    else None
  }

  function Primary(s: string): (r: Option<(Expr, string)>)
    ensures r.Some? ==> |r.value.1| < |s|
    decreases |s|, 2
  {
    var t :- SkipSpace(s);
    if IsDigit(Peek(t)) || Peek(t) == '$' then NumberAt(t)
    else if Peek(t) == '(' then
      var (e, u) :- Expression(t[1..]);
      var w :- Accept(')', u);
      Some((e, w))
    else if Peek(t) == '.' && !(|t| > 1 && IdentChar(t[1])) then Some((Dot, t[1..]))
    else NamedAt(t)
  }

  /** A symbol, or a call of a function. */
  function NamedAt(s: string): (r: Option<(Expr, string)>)
    ensures r.Some? ==> |r.value.1| < |s|
    decreases |s|, 1
  {
    var (name, u) :- NameAt(s);
    var v :- SkipSpace(u);
    if Peek(v) == '(' then Call(name, v[1..]) else Some((Sym(name), v))
  }

  function UnaryOpAt(s: string): Option<UnaryOp> {
    if Peek(s) == '-' then Some(Neg)
    else if Peek(s) == '~' then Some(Compl)
    else if Peek(s) == '!' then Some(Not)
    else None
  }

  function UnaryAt(s: string): (r: Option<(Expr, string)>)
    ensures r.Some? ==> |r.value.1| < |s|
    decreases |s|, 3
  {
    var t :- SkipSpace(s);
    if UnaryOpAt(t).Some? then
      var (e, u) :- UnaryAt(t[1..]);
      Some((Unary(UnaryOpAt(t).value, e), u))
    else if Peek(t) == '+' then UnaryAt(t[1..])
    else Primary(t)
  }

  function BinaryAt(level: nat, s: string): (r: Option<(Expr, string)>)
    ensures r.Some? ==> |r.value.1| < |s|
    decreases |s|, if level > 10 then 4 else 16 - level
  {
    if level > 10 then UnaryAt(s)
    else
      var (e, t) :- BinaryAt(level + 1, s);
      Tail(level, e, t)
  }

  /** The loop over the operators of one level, after the first operand. */
  function Tail(level: nat, e: Expr, s: string): (r: Option<(Expr, string)>)
    ensures r.Some? ==> |r.value.1| <= |s|
    decreases |s|, 0
  {
    var t :- SkipSpace(s);
    var op := FindOp(level, t, TABLE);
    if op.None? then Some((e, t))
    else
      var (b, u) :- BinaryAt(level + 1, t[|OpText(op.value)|..]);
      Tail(level, Binary(op.value, e, b), u)
  }

  function Expression(s: string): (r: Option<(Expr, string)>)
    ensures r.Some? ==> |r.value.1| < |s|
    decreases |s|, 20
  {
    var (e, t) :- BinaryAt(1, s);
    if Accept('?', t).None? then
      var u :- SkipSpace(t);
      Some((e, u))
    else
      var (b, u) :- Expression(Accept('?', t).value);
      var w :- Accept(':', u);
      var (c, x) :- Expression(w);
      Some((Cond(e, b, c), x))
  }

  // ---- the printer

  function UnaryText(op: UnaryOp): char {
    match op
    case Neg => '-'
    case Compl => '~'
    case Not => '!'
  }

  function NameFnText(f: NameFn): string {
    match f
    case ADDR => "ADDR" case LOADADDR => "LOADADDR" case SIZEOF => "SIZEOF"
    case DEFINED => "DEFINED" case ORIGIN => "ORIGIN" case LENGTH => "LENGTH"
  }

  function PairFnText(f: PairFn): string {
    match f
    case ALIGN => "ALIGN" case MAX => "MAX" case MIN => "MIN"
  }

  /** How tightly a tree's own operator binds: 0 for ?:, 1 to 10 for the binary
      operators, 11 for the unary ones, 12 for the rest. */
  function Precedence(e: Expr): nat {
    match e
    case Cond(_, _, _) => 0
    case Binary(op, _, _) => OpLevel(op)
    case Unary(_, _) => 11
    case _ => 12
  }

  /** The text of a tree where something of at least the given precedence is
      wanted; every token is followed by a space. */
  function Print(e: Expr, level: nat): string
    decreases e, 1
  {
    if Precedence(e) < level then "( " + Bare(e) + ") " else Bare(e)
  }

  function Bare(e: Expr): string
    decreases e, 0
  {
    match e
    case Num(n) => Decimal(n) + " "
    case Dot => ". "
    case Sym(x) => x + " "
    case OfName(f, arg) => NameFnText(f) + " ( " + arg + " ) "
    case AlignDot(a) => "ALIGN ( " + Print(a, 0) + ") "
    case OfPair(f, a, b) => PairFnText(f) + " ( " + Print(a, 0) + ", " + Print(b, 0) + ") "
    case Cond(a, b, c) => Print(a, 1) + "? " + Print(b, 0) + ": " + Print(c, 0)
    case Unary(op, a) => [UnaryText(op), ' '] + Print(a, 11)
    case Binary(op, a, b) => Print(a, OpLevel(op)) + OpText(op) + " " + Print(b, OpLevel(op) + 1)
  }

  /** The names that the script language can write. */
  predicate ValidName(x: string) {
    && x != [] && x != "."
    && (IsAlpha(x[0]) || x[0] == '_' || x[0] == '.')
    && forall i | 0 <= i < |x| :: IdentChar(x[i])
  }

  predicate Writable(e: Expr) {
    match e
    case Num(_) => true
    case Dot => true
    case Sym(x) => ValidName(x)
    case OfName(_, arg) => ValidName(arg)
    case AlignDot(a) => Writable(a)
    case Unary(_, a) => Writable(a)
    case OfPair(_, a, b) => Writable(a) && Writable(b)
    case Binary(_, a, b) => Writable(a) && Writable(b)
    case Cond(a, b, c) => Writable(a) && Writable(b) && Writable(c)
  }

  // ---- round trip

  /** A text that does not begin with space, a comment or "(". */
  predicate Settled(s: string) {
    s != [] ==> !IsSpace(s[0]) && s[0] != '#' && s[0] != '(' && !(|s| > 1 && s[0] == '/' && s[1] == '*')
  }

  /** A text that no operator begins. */
  predicate Quiet(s: string) {
    s != [] ==> s[0] in ")?:,;{}"
  }

  /** No operator that binds tighter than the level begins the text. */
  ghost predicate NoOpAbove(level: nat, s: string) {
    forall op: BinaryOp | OpLevel(op) > level :: !HasOp(op, s)
  }

  /** The parse gave the tree, and what follows is `rest`. */
  ghost predicate Gives(r: Option<(Expr, string)>, e: Expr, rest: string) {
    r.Some? && r.value.0 == e && SkipSpace(r.value.1) == Some(rest)
  }

  lemma SkipOne(s: string)
    requires Settled(s)
    ensures SkipSpace(s) == Some(s) && SkipSpace(" " + s) == Some(s)
  {
    assert (" " + s)[1..] == s;
  }

  lemma QuietHasNoOp(s: string)
    requires Quiet(s)
    ensures Settled(s) && NoOpAbove(0, s)
  {
    forall op: BinaryOp
      ensures !HasOp(op, s)
    {
      assert OpText(op) != [] && OpText(op)[0] in "|&^=!<>+-*/%";
    }
  }

  lemma {:induction false} FindNothing(level: nat, s: string, ops: seq<BinaryOp>)
    requires forall op: BinaryOp | OpLevel(op) == level :: !HasOp(op, s)
    ensures FindOp(level, s, ops).None?
  {
    if ops != [] {
      FindNothing(level, s, ops[1..]);
    }
  }

  lemma TableHasAll(op: BinaryOp)
    ensures op in TABLE
  {
    var i := match op
      case LOr => 0 case LAnd => 1 case BitOr => 2 case BitXor => 3 case BitAnd => 4 case Eq => 5 case Ne => 6
      case Le => 7 case Ge => 8 case Shl => 9 case Shr => 10 case Lt => 11 case Gt => 12 case Add => 13
      case Sub => 14 case Mul => 15 case Div => 16 case Mod => 17;
    assert TABLE[i] == op;
  }

  /** After an operator and a space, exactly that operator is found. */
  lemma OpIsFound(op: BinaryOp, other: BinaryOp, y: string)
    ensures HasOp(other, OpText(op) + " " + y) <==> other == op
  {
    var s := OpText(op) + " " + y;
    assert s[..|OpText(op)|] == OpText(op);
    assert s[0] == OpText(op)[0] && s[1] == (OpText(op) + " ")[1];
    if HasOp(other, s) {
      assert OpText(other)[0] == s[0];
      assert |OpText(other)| == 2 ==> OpText(other)[1] == s[1];
    }
  }

  lemma OpIsSettled(op: BinaryOp, y: string)
    ensures Settled(OpText(op) + " " + y)
  {
    var s := OpText(op) + " " + y;
    assert s[0] == OpText(op)[0] && s[1] == (OpText(op) + " ")[1];
  }

  lemma OnlyOp(op: BinaryOp, y: string)
    ensures NoOpAbove(OpLevel(op), OpText(op) + " " + y)
    ensures FindOp(OpLevel(op), OpText(op) + " " + y, TABLE) == Some(op)
  {
    forall other: BinaryOp
      ensures HasOp(other, OpText(op) + " " + y) <==> other == op
    {
      OpIsFound(op, other, y);
    }
    TableHasAll(op);
  }

  // ---- leading space

  lemma SkipLeading(s: string)
    ensures SkipSpace(" " + s) == SkipSpace(s)
  {
    assert (" " + s)[1..] == s;
  }

  lemma {:induction false} BinaryLeading(level: nat, s: string)
    ensures BinaryAt(level, " " + s) == BinaryAt(level, s)
    decreases if level > 10 then 0 else 11 - level
  {
    if level > 10 {
      SkipLeading(s);
    } else {
      BinaryLeading(level + 1, s);
    }
  }

  lemma ExpressionLeading(s: string)
    ensures Expression(" " + s) == Expression(s)
  {
    BinaryLeading(1, s);
  }

  // ---- numbers and names

  function Digits(a: string, acc: nat): nat {
    if a == [] then acc else Digits(a[1..], acc * 10 + DigitValue(a[0]))
  }

  lemma {:induction false} DigitsSnoc(a: string, c: char, acc: nat)
    ensures Digits(a + [c], acc) == Digits(a, acc) * 10 + DigitValue(c)
  {
    if a != [] {
      assert (a + [c])[1..] == a[1..] + [c];
      DigitsSnoc(a[1..], c, acc * 10 + DigitValue(a[0]));
    }
  }

  lemma {:induction false} DecimalDigits(n: nat)
    ensures Decimal(n) != [] && (forall i | 0 <= i < |Decimal(n)| :: IsDigit(Decimal(n)[i]))
    ensures Digits(Decimal(n), 0) == n
    ensures Decimal(n)[0] == '0' <==> n == 0
  {
    if n >= 10 {
      DecimalDigits(n / 10);
      DigitsSnoc(Decimal(n / 10), ('0' as int + n % 10) as char, 0);
    }
  }

  lemma {:induction false} DigitRunReads(a: string, t: string, acc: nat)
    requires (forall i | 0 <= i < |a| :: IsDigit(a[i])) && DigitValue(Peek(t)) >= 10
    ensures DigitRun(a + t, 10, acc) == (|a|, Digits(a, acc))
  {
    if a == [] {
      assert a + t == t;
    } else {
      assert (a + t)[1..] == a[1..] + t;
      DigitRunReads(a[1..], t, acc * 10 + DigitValue(a[0]));
    }
  }

  lemma NumberParses(n: nat, t: string)
    ensures NumberAt(Decimal(n) + " " + t) == Some((Num(n), " " + t))
  {
    DecimalDigits(n);
    var a, s := Decimal(n), Decimal(n) + (" " + t);
    assert Decimal(n) + " " + t == s;
    assert s[0] == a[0] && s[|a|..] == " " + t;
    if n == 0 {
      assert a == "0" && s[1..] == " " + t;
      assert DigitRun(s[1..], 8, 0) == (0, 0);
      assert DigitRun(s, 8, 0) == (1, 0);
    } else {
      DigitRunReads(a, " " + t, 0);
    }
    assert UnsignedAt(s, false) == Some((n, " " + t));
  }

  lemma {:induction false} IdentRunReads(x: string, t: string)
    requires (forall i | 0 <= i < |x| :: IdentChar(x[i])) && !IdentChar(Peek(t))
    ensures IdentRun(x + t) == |x|
  {
    if x == [] {
      assert x + t == t;
    } else {
      assert (x + t)[1..] == x[1..] + t;
      IdentRunReads(x[1..], t);
    }
  }

  lemma NameParses(x: string, t: string)
    requires ValidName(x)
    ensures NameAt(x + " " + t) == Some((x, " " + t))
  {
    var s := x + (" " + t);
    assert x + " " + t == s;
    assert SkipSpace(s) == Some(s);
    IdentRunReads(x, " " + t);
    assert s[..|x|] == x && s[|x|..] == " " + t;
  }

  lemma CommandNames(f: NameFn, g: PairFn)
    ensures ValidName(NameFnText(f)) && NameFnOf(NameFnText(f)) == Some(f)
    ensures ValidName(PairFnText(g)) && NameFnOf(PairFnText(g)) == None
  {
    assert NameFnText(f)[0] in "ALSDO" && PairFnText(g)[0] in "AM";
    assert NameFnText(f) != ".";
  }

  // ---- the round trip, from the inside out

  /** A text that ends an expression. */
  predicate Ends(s: string) {
    s != [] ==> s[0] in "):,;{}"
  }

  lemma CallOfName(f: NameFn, s: string, arg: string, t: string, u: string)
    requires NameAt(s) == Some((arg, t)) && Accept(')', t) == Some(u)
    ensures Call(NameFnText(f), s) == Some((OfName(f, arg), u))
  {
    CommandNames(f, MAX);
  }

  lemma NameCallParses(f: NameFn, arg: string, rest: string)
    requires ValidName(arg) && Settled(rest)
    ensures Gives(Call(NameFnText(f), " " + arg + " ) " + rest), OfName(f, arg), rest)
  {
    assert " " + arg + " ) " + rest == " " + (arg + " " + (") " + rest));
    SkipLeading(arg + " " + (") " + rest));
    NameParses(arg, ") " + rest);
    SkipOne(") " + rest);
    assert (") " + rest)[1..] == " " + rest;
    CallOfName(f, " " + arg + " ) " + rest, arg, " " + (") " + rest), " " + rest);
    SkipOne(rest);
  }

  /** A call of a name: what Primary does before Call. */
  lemma PrimaryCalls(name: string, s: string)
    requires ValidName(name)
    ensures Primary(name + " ( " + s) == Call(name, " " + s)
  {
    var t := "( " + s;
    assert name + " ( " + s == name + " " + t;
    NameParses(name, t);
    assert (name + " " + t)[0] == name[0];
    assert |name| > 1 ==> (name + " " + t)[1] == name[1];
    assert SkipSpace(name + " " + t) == Some(name + " " + t);
    SkipLeading(t);
    assert SkipSpace(t) == Some(t);
    assert t[1..] == " " + s;
    assert name[0] == '.' ==> |name| > 1;
  }

  lemma SymParses(x: string, rest: string)
    requires ValidName(x) && Settled(rest)
    ensures Gives(Primary(x + " " + rest), Sym(x), rest)
  {
    NameParses(x, rest);
    assert (x + " " + rest)[0] == x[0];
    assert |x| > 1 ==> (x + " " + rest)[1] == x[1];
    assert SkipSpace(x + " " + rest) == Some(x + " " + rest);
    assert x[0] == '.' ==> |x| > 1;
    SkipOne(rest);
  }

  lemma NumPrimary(n: nat, rest: string)
    requires Settled(rest)
    ensures Gives(Primary(Decimal(n) + " " + rest), Num(n), rest)
  {
    DecimalDigits(n);
    assert (Decimal(n) + " " + rest)[0] == Decimal(n)[0];
    assert SkipSpace(Decimal(n) + " " + rest) == Some(Decimal(n) + " " + rest);
    NumberParses(n, rest);
    SkipOne(rest);
  }

  lemma DotPrimary(rest: string)
    requires Settled(rest)
    ensures Gives(Primary(". " + rest), Dot, rest)
  {
    assert (". " + rest)[1..] == " " + rest;
    SkipOne(rest);
  }

  lemma NamePrimary(f: NameFn, arg: string, rest: string)
    requires ValidName(arg) && Settled(rest)
    ensures Gives(Primary(Bare(OfName(f, arg)) + rest), OfName(f, arg), rest)
  {
    CommandNames(f, MAX);
    NameCallParses(f, arg, rest);
    var inner := arg + " ) " + rest;
    assert Bare(OfName(f, arg)) + rest == NameFnText(f) + " ( " + inner;
    assert " " + arg + " ) " + rest == " " + inner;
    PrimaryCalls(NameFnText(f), inner);
  }

  lemma {:induction false} PrimaryParses(e: Expr, rest: string)
    requires Writable(e) && Precedence(e) == 12 && Settled(rest)
    ensures Gives(Primary(Bare(e) + rest), e, rest)
    decreases e, 0, 1
  {
    if e.Num? {
      NumPrimary(e.n, rest);
    } else if e.Dot? {
      DotPrimary(rest);
    } else if e.Sym? {
      SymParses(e.name, rest);
    } else if e.OfName? {
      NamePrimary(e.nf, e.arg, rest);
    } else if e.AlignDot? {
      AlignDotParses(e.a, rest);
    } else {
      PairParses(e.pf, e.a, e.b, rest);
    }
  }

  /** The end of a call with one argument, and with two. */
  lemma CallOne(s: string, a: Expr, rest: string)
    requires Gives(Expression(s), a, ") " + rest) && Settled(rest)
    ensures Gives(Call("ALIGN", s), AlignDot(a), rest)
  {
    CommandNames(ADDR, ALIGN);
    assert (") " + rest)[0] == ')' && (") " + rest)[1..] == " " + rest;
    SkipOne(rest);
  }

  lemma CallTwo(f: PairFn, s: string, a: Expr, s2: string, b: Expr, rest: string)
    requires Gives(Expression(s), a, ", " + s2) && Gives(Expression(" " + s2), b, ") " + rest) && Settled(rest)
    ensures Gives(Call(PairFnText(f), s), OfPair(f, a, b), rest)
  {
    CommandNames(ADDR, f);
    PairNames(f);
    assert (", " + s2)[0] == ',' && (", " + s2)[1..] == " " + s2;
    assert (") " + rest)[0] == ')' && (") " + rest)[1..] == " " + rest;
    SkipOne(rest);
  }

  lemma {:induction false} AlignDotParses(a: Expr, rest: string)
    requires Writable(a) && Settled(rest)
    ensures Gives(Primary(Bare(AlignDot(a)) + rest), AlignDot(a), rest)
    decreases a, 5, 0
  {
    var inner := Print(a, 0) + (") " + rest);
    CommandNames(ADDR, ALIGN);
    ExpressionParses(a, ") " + rest);
    ExpressionLeading(inner);
    CallOne(" " + inner, a, rest);
    PrimaryCalls("ALIGN", inner);
    AlignText(a, rest);
  }

  lemma AlignText(a: Expr, rest: string)
    ensures Bare(AlignDot(a)) + rest == "ALIGN" + " ( " + (Print(a, 0) + (") " + rest))
  {
    assert "ALIGN ( " == "ALIGN" + " ( ";
  }

  lemma {:induction false} PairParses(f: PairFn, a: Expr, b: Expr, rest: string)
    requires Writable(a) && Writable(b) && Settled(rest)
    ensures Gives(Primary(Bare(OfPair(f, a, b)) + rest), OfPair(f, a, b), rest)
    decreases OfPair(f, a, b), 0, 0
  {
    var second := Print(b, 0) + (") " + rest);
    var inner := Print(a, 0) + (", " + second);
    CommandNames(ADDR, f);
    ExpressionParses(a, ", " + second);
    ExpressionLeading(inner);
    ExpressionParses(b, ") " + rest);
    ExpressionLeading(second);
    CallTwo(f, " " + inner, a, second, b, rest);
    PrimaryCalls(PairFnText(f), inner);
    PairText(f, a, b, rest);
  }

  lemma PairText(f: PairFn, a: Expr, b: Expr, rest: string)
    ensures Bare(OfPair(f, a, b)) + rest
            == PairFnText(f) + " ( " + (Print(a, 0) + (", " + (Print(b, 0) + (") " + rest))))
  {
  }

  lemma PairNames(f: PairFn)
    ensures (PairFnText(f) == "ALIGN" <==> f == ALIGN) && (PairFnText(f) == "MAX" <==> f == MAX) && (PairFnText(f) == "MIN" <==> f == MIN)
  {
    assert "ALIGN"[0] != "MAX"[0] && "ALIGN"[0] != "MIN"[0] && "MAX"[1] != "MIN"[1];
  }

  lemma {:induction false} UnaryParses(e: Expr, rest: string)
    requires Writable(e) && Settled(rest)
    ensures Gives(UnaryAt(Print(e, 11) + rest), e, rest)
    decreases e, if Precedence(e) < 11 then 2 else 0, 2
  {
    if e.Unary? {
      UnaryParses(e.a, rest);
      UnaryOpParses(e.uop, Print(e.a, 11) + rest, e.a, rest);
      UnaryJoins(e, rest);
    } else if Precedence(e) == 12 {
      PrimaryParses(e, rest);
      BareStarts(e, rest);
    } else {
      ExpressionParses(e, ") " + rest);
      ParenParses(Print(e, 0), e, rest);
      ParenJoins(e, rest);
    }
  }

  lemma UnaryJoins(e: Expr, rest: string)
    requires e.Unary?
    ensures Print(e, 11) + rest == [UnaryText(e.uop), ' '] + (Print(e.a, 11) + rest)
  {
  }

  lemma ParenJoins(e: Expr, rest: string)
    requires Precedence(e) < 11
    ensures Print(e, 11) + rest == "( " + (Print(e, 0) + (") " + rest))
  {
  }

  lemma UnaryOpParses(op: UnaryOp, inner: string, a: Expr, rest: string)
    requires Gives(UnaryAt(inner), a, rest)
    ensures Gives(UnaryAt([UnaryText(op), ' '] + inner), Unary(op, a), rest)
  {
    var s := [UnaryText(op), ' '] + inner;
    assert s[1..] == " " + inner;
    assert SkipSpace(s) == Some(s);
    SkipLeading(inner);
  }

  lemma ParenParses(text: string, e: Expr, rest: string)
    requires Gives(Expression(text + (") " + rest)), e, ") " + rest) && Settled(rest)
    ensures Gives(UnaryAt("( " + (text + (") " + rest))), e, rest)
  {
    var inner := text + (") " + rest);
    var s := "( " + inner;
    assert s[1..] == " " + inner;
    assert SkipSpace(s) == Some(s);
    ExpressionLeading(inner);
    assert (") " + rest)[1..] == " " + rest;
    SkipOne(rest);
  }

  /** An operand of the highest precedence starts with no operator. */
  lemma BareStarts(e: Expr, rest: string)
    requires Writable(e) && Precedence(e) == 12
    ensures SkipSpace(Bare(e) + rest) == Some(Bare(e) + rest)
    ensures UnaryOpAt(Bare(e) + rest).None? && Peek(Bare(e) + rest) != '+'
  {
    var c := if e.Num? then Decimal(e.n)[0] else if e.Dot? then '.' else if e.Sym? then e.name[0]
             else if e.OfName? then NameFnText(e.nf)[0] else if e.AlignDot? then 'A' else PairFnText(e.pf)[0];
    if e.Num? {
      DecimalDigits(e.n);
    }
    assert (Bare(e) + rest)[0] == c;
    assert IdentChar(c);
  }

  lemma {:induction false} BinaryParses(level: nat, e: Expr, rest: string)
    requires 1 <= level <= 10 && Writable(e) && Settled(rest) && NoOpAbove(level, rest)
    ensures BinaryAt(level, Print(e, level) + rest) == Tail(level, e, rest)
    decreases e, if Precedence(e) < level then 2 else 0, 40 - 3 * level
  {
    if Precedence(e) == level {
      ChainParses(level, e, rest);
    } else {
      OperandParses(level, e, rest);
    }
  }

  /** One level further in, where the tree's own operator is not of this level. */
  lemma {:induction false} OperandParses(level: nat, e: Expr, rest: string)
    requires 1 <= level <= 10 && Writable(e) && Settled(rest) && NoOpAbove(level, rest) && Precedence(e) != level
    ensures BinaryAt(level, Print(e, level) + rest) == Tail(level, e, rest)
    decreases e, if Precedence(e) < level then 2 else 0, 39 - 3 * level
  {
    assert Print(e, level) == Print(e, level + 1);
    NextLevel(level, e, rest);
    TailSkips(level, e, BinaryAt(level + 1, Print(e, level + 1) + rest).value.1, rest);
  }

  /** The operand that the next level parses. */
  lemma {:induction false} NextLevel(level: nat, e: Expr, rest: string)
    requires 1 <= level <= 10 && Writable(e) && Settled(rest) && NoOpAbove(level, rest)
    ensures Gives(BinaryAt(level + 1, Print(e, level + 1) + rest), e, rest)
    decreases e, if Precedence(e) < level + 1 then 2 else 0, 38 - 3 * level
  {
    if level == 10 {
      UnaryParses(e, rest);
    } else {
      BinaryParses(level + 1, e, rest);
      FindNothing(level + 1, rest, TABLE);
      SkipOne(rest);
    }
  }

  lemma TailSkips(level: nat, e: Expr, s: string, rest: string)
    requires SkipSpace(s) == Some(rest) && Settled(rest)
    ensures Tail(level, e, s) == Tail(level, e, rest)
  {
    SkipOne(rest);
  }

  /** A chain of operators of one level groups to the left. */
  lemma {:induction false} ChainParses(level: nat, e: Expr, rest: string)
    requires 1 <= level <= 10 && Writable(e) && Settled(rest) && NoOpAbove(level, rest) && Precedence(e) == level
    ensures BinaryAt(level, Print(e, level) + rest) == Tail(level, e, rest)
    decreases e, 0, 39 - 3 * level
  {
    var op, a, b := e.bop, e.a, e.b;
    var right := Print(b, level + 1) + rest;
    var after := OpText(op) + " " + right;
    OpIsSettled(op, right);
    OnlyOp(op, right);
    BinaryParses(level, a, after);
    NextLevel(level, b, rest);
    ChainJoins(level, op, a, right, b, rest);
    ChainText(e, rest);
  }

  lemma ChainText(e: Expr, rest: string)
    requires e.Binary?
    ensures Bare(e) + rest == Print(e.a, OpLevel(e.bop)) + (OpText(e.bop) + " " + (Print(e.b, OpLevel(e.bop) + 1) + rest))
  {
  }

  lemma TailStep(level: nat, e: Expr, s: string, op: BinaryOp, b: Expr, u: string)
    requires SkipSpace(s) == Some(s) && FindOp(level, s, TABLE) == Some(op)
    requires BinaryAt(level + 1, s[|OpText(op)|..]) == Some((b, u))
    ensures Tail(level, e, s) == Tail(level, Binary(op, e, b), u)
  {
  }

  lemma AfterOp(level: nat, op: BinaryOp, right: string)
    requires BinaryAt(level + 1, right).Some?
    ensures BinaryAt(level + 1, (OpText(op) + " " + right)[|OpText(op)|..]) == BinaryAt(level + 1, right)
  {
    assert (OpText(op) + " " + right)[|OpText(op)|..] == " " + right;
    BinaryLeading(level + 1, right);
  }

  lemma ChainJoins(level: nat, op: BinaryOp, a: Expr, right: string, b: Expr, rest: string)
    requires Settled(OpText(op) + " " + right) && FindOp(level, OpText(op) + " " + right, TABLE) == Some(op)
    requires Gives(BinaryAt(level + 1, right), b, rest) && Settled(rest)
    ensures Tail(level, a, OpText(op) + " " + right) == Tail(level, Binary(op, a, b), rest)
  {
    SkipOne(OpText(op) + " " + right);
    AfterOp(level, op, right);
    ChainTail(level, op, a, OpText(op) + " " + right, b, BinaryAt(level + 1, right).value.1, rest);
  }

  lemma ChainTail(level: nat, op: BinaryOp, a: Expr, after: string, b: Expr, u: string, rest: string)
    requires SkipSpace(after) == Some(after) && FindOp(level, after, TABLE) == Some(op)
    requires BinaryAt(level + 1, after[|OpText(op)|..]) == Some((b, u)) && SkipSpace(u) == Some(rest) && Settled(rest)
    ensures Tail(level, a, after) == Tail(level, Binary(op, a, b), rest)
  {
    TailStep(level, a, after, op, b, u);
    TailSkips(level, Binary(op, a, b), u, rest);
  }

  /** Round trip: printing a tree and parsing the text gives the tree back, with
      binary operators grouped to the left and ?: to the right. */
  lemma {:induction false} ExpressionParses(e: Expr, rest: string)
    requires Writable(e) && Ends(rest)
    ensures Gives(Expression(Print(e, 0) + rest), e, rest)
    decreases e, 1, 20
  {
    QuietHasNoOp(rest);
    SkipOne(rest);
    if e.Cond? {
      CondParses(e, rest);
    } else {
      assert Print(e, 0) == Print(e, 1);
      BinaryParses(1, e, rest);
      FindNothing(1, rest, TABLE);
    }
  }

  lemma {:induction false} CondParses(e: Expr, rest: string)
    requires e.Cond? && Writable(e) && Ends(rest)
    ensures Gives(Expression(Print(e, 0) + rest), e, rest)
    decreases e, 0, 0
  {
    var last := Print(e.c, 0) + rest;
    var middle := Print(e.b, 0) + (": " + last);
    var question := "? " + middle;
    QuietHasNoOp(question);
    BinaryParses(1, e.a, question);
    FindNothing(1, question, TABLE);
    SkipOne(question);
    ExpressionParses(e.b, ": " + last);
    ExpressionParses(e.c, rest);
    CondJoins(Print(e.a, 1), e.a, middle, e.b, last, e.c, rest);
    CondText(e, rest);
  }

  lemma CondText(e: Expr, rest: string)
    requires e.Cond?
    ensures Print(e, 0) + rest == Print(e.a, 1) + ("? " + (Print(e.b, 0) + (": " + (Print(e.c, 0) + rest))))
  {
    Nests(Print(e.a, 1), "? ", Print(e.b, 0), ": ", Print(e.c, 0), rest);
  }

  lemma Nests(a: string, b: string, c: string, d: string, e: string, rest: string)
    ensures a + b + c + d + e + rest == a + (b + (c + (d + (e + rest))))
  {
    Assoc(a + b + c + d, e, rest);
    Assoc(a + b + c, d, e + rest);
    Assoc(a + b, c, d + (e + rest));
    Assoc(a, b, c + (d + (e + rest)));
  }

  lemma CondStep(s: string, a: Expr, t: string, b: Expr, u: string, c: Expr, x: string)
    requires BinaryAt(1, s).Some? && BinaryAt(1, s).value.0 == a && Accept('?', BinaryAt(1, s).value.1) == Some(t)
    requires Expression(t).Some? && Expression(t).value.0 == b && Accept(':', Expression(t).value.1) == Some(u)
    requires Expression(u) == Some((c, x))
    ensures Expression(s) == Some((Cond(a, b, c), x))
  {
  }

  lemma CondJoins(text: string, a: Expr, middle: string, b: Expr, last: string, c: Expr, rest: string)
    requires BinaryAt(1, text + ("? " + middle)) == Some((a, "? " + middle))
    requires Gives(Expression(middle), b, ": " + last) && Gives(Expression(last), c, rest)
    ensures Gives(Expression(text + ("? " + middle)), Cond(a, b, c), rest)
  {
    var question := "? " + middle;
    SkipOne(question);
    assert question[1..] == " " + middle;
    ExpressionLeading(middle);
    assert (": " + last)[1..] == " " + last;
    ExpressionLeading(last);
    CondStep(text + question, a, " " + middle, b, " " + last, c, Expression(last).value.1);
  }

  // ---- as the linker runs it: a text pointer that the methods advance

  ghost predicate Parses(r: Option<Expr>, rest: string, spec: Option<(Expr, string)>) {
    r.Some? == spec.Some? && (r.Some? ==> spec.value == (r.value, rest))
  }

  class Parser {
    var p: string

    constructor (text: string)
      ensures p == text
    {
      p := text;
    }

    method Take(c: char) returns (ok: bool)
      modifies this
      ensures ok == Accept(c, old(p)).Some? && (ok ==> p == Accept(c, old(p)).value)
      ensures !ok && SkipSpace(old(p)).Some? ==> p == SkipSpace(old(p)).value
      ensures !ok && SkipSpace(old(p)).None? ==> p == old(p)
    {
      var t := SkipSpace(p);
      if t.None? {
        return false;
      }
      p := t.value;
      ok := p != [] && p[0] == c;
      if ok {
        p := p[1..];
      }
    }

    method ParseName() returns (r: Option<string>)
      modifies this
      ensures r.Some? == NameAt(old(p)).Some? && (r.Some? ==> NameAt(old(p)).value == (r.value, p))
    {
      var t := SkipSpace(p);
      if t.None? {
        return None;
      }
      p := t.value;
      if p == [] || !(IsAlpha(p[0]) || p[0] == '_' || p[0] == '.') {
        return None;
      }
      var n := IdentRun(p);
      r := Some(p[..n]);
      p := p[n..];
    }

    /** What follows `ALIGN(` */
    method ParseAlign() returns (r: Option<Expr>)
      modifies this
      ensures Parses(r, p, Call("ALIGN", old(p)))
      decreases |p|, 21
    {
      var a := ParseExpression();
      if a.None? {
        return None;
      }
      SkipIsDone(p);
      var comma := Take(',');
      var b := None;
      if comma {
        b := ParseExpression();
        if b.None? {
          return None;
        }
      }
      var ok := Take(')');
      if !ok {
        return None;
      }
      return Some(if comma then OfPair(ALIGN, a.value, b.value) else AlignDot(a.value));
    }

    /** What follows `MAX(` or `MIN(` */
    method ParsePair(name: string) returns (r: Option<Expr>)
      requires name == "MAX" || name == "MIN"
      modifies this
      ensures Parses(r, p, Call(name, old(p)))
      decreases |p|, 21
    {
      var a := ParseExpression();
      if a.None? {
        return None;
      }
      var comma := Take(',');
      if !comma {
        return None;
      }
      var b := ParseExpression();
      if b.None? {
        return None;
      }
      var ok := Take(')');
      if !ok {
        return None;
      }
      return Some(OfPair(if name == "MAX" then MAX else MIN, a.value, b.value));
    }

    /** What follows a name and a parenthesis. */
    method ParseCall(name: string) returns (r: Option<Expr>)
      modifies this
      ensures Parses(r, p, Call(name, old(p)))
      decreases |p|, 22
    {
      if name == "ALIGN" {
        r := ParseAlign();
      } else if name == "MAX" || name == "MIN" {
        r := ParsePair(name);
      } else if NameFnOf(name).None? {
        r := None;
      } else {
        var arg := ParseName();
        if arg.None? {
          return None;
        }
        var ok := Take(')');
        return if ok then Some(OfName(NameFnOf(name).value, arg.value)) else None;
      }
    }

    method ParseNumber() returns (r: Option<Expr>)
      modifies this
      ensures Parses(r, p, NumberAt(old(p)))
    {
      var n := NumberAt(p);
      if n.None? {
        return None;
      }
      r, p := Some(n.value.0), n.value.1;
    }

    method ParsePrimary() returns (r: Option<Expr>)
      modifies this
      ensures Parses(r, p, Primary(old(p)))
      decreases |p|, 2
    {
      var t := SkipSpace(p);
      if t.None? {
        return None;
      }
      p := t.value;
      if IsDigit(Peek(p)) || Peek(p) == '$' {
        r := ParseNumber();
      } else if Peek(p) == '(' {
        p := p[1..];
        r := ParseExpression();
        if r.Some? {
          var ok := Take(')');
          return if ok then r else None;
        }
      } else if Peek(p) == '.' && !(|p| > 1 && IdentChar(p[1])) {
        p := p[1..];
        r := Some(Dot);
      } else {
        r := ParseNamed();
      }
    }

    /** A symbol, or a call. */
    method ParseNamed() returns (r: Option<Expr>)
      modifies this
      ensures Parses(r, p, NamedAt(old(p)))
      decreases |p|, 1
    {
      var name := ParseName();
      if name.None? {
        return None;
      }
      var v := SkipSpace(p);
      if v.None? {
        return None;
      }
      p := v.value;
      if Peek(p) == '(' {
        p := p[1..];
        r := ParseCall(name.value);
      } else {
        r := Some(Sym(name.value));
      }
    }

    method ParseUnary() returns (r: Option<Expr>)
      modifies this
      ensures Parses(r, p, UnaryAt(old(p)))
      decreases |p|, 3
    {
      var t := SkipSpace(p);
      if t.None? {
        return None;
      }
      p := t.value;
      var op := UnaryOpAt(p);
      if op.Some? {
        p := p[1..];
        var a := ParseUnary();
        return if a.Some? then Some(Unary(op.value, a.value)) else None;
      }
      if Peek(p) == '+' {
        p := p[1..];
        r := ParseUnary();
        return;
      }
      r := ParsePrimary();
    }

    /** Operands of the next level, joined to the left while an operator of this
        level follows. */
    method ParseBinary(level: nat) returns (r: Option<Expr>)
      modifies this
      ensures Parses(r, p, BinaryAt(level, old(p)))
      decreases |p|, if level > 10 then 4 else 16 - level
    {
      if level > 10 {
        r := ParseUnary();
        return;
      }
      r := ParseBinary(level + 1);
      if r.None? {
        return;
      }
      var e := r.value;
      ghost var goal := BinaryAt(level, old(p));
      while true
        invariant |p| < |old(p)|
        invariant Tail(level, e, p) == goal
        decreases |p|
      {
        var t := SkipSpace(p);
        if t.None? {
          return None;
        }
        p := t.value;
        var op := FindOp(level, p, TABLE);
        if op.None? {
          return Some(e);
        }
        p := p[|OpText(op.value)|..];
        var b := ParseBinary(level + 1);
        if b.None? {
          return None;
        }
        e := Binary(op.value, e, b.value);
      }
    }

    method ParseExpression() returns (r: Option<Expr>)
      modifies this
      ensures Parses(r, p, Expression(old(p)))
      decreases |p|, 20
    {
      r := ParseBinary(1);
      if r.None? {
        return;
      }
      SkipIsDone(p);
      var question := Take('?');
      if !question {
        return if SkipSpace(p).None? then None else r;
      }
      var b := ParseExpression();
      if b.None? {
        return None;
      }
      var colon := Take(':');
      if !colon {
        return None;
      }
      var c := ParseExpression();
      return if c.None? then None else Some(Cond(r.value, b.value, c.value));
    }
  }

  lemma {:induction false} SkipIsDone(s: string)
    ensures SkipSpace(s).Some? ==> SkipSpace(SkipSpace(s).value) == SkipSpace(s)
    decreases |s|
  {
    if s != [] && IsSpace(s[0]) {
      SkipIsDone(s[1..]);
    } else if |s| >= 2 && s[0] == '/' && s[1] == '*' {
      if AfterComment(s[2..]).Some? {
        SkipIsDone(AfterComment(s[2..]).value);
      }
    } else if s != [] && s[0] == '#' {
      SkipIsDone(AfterLine(s[1..]));
    }
  }
}
