/** The expression printer of EXPLAIN, and what the lexer reads back from it. */
module ExplainText {
  import opened Bytes
  import opened Options
  import opened Memcomparable
  import X = Expressions
  import opened SqlText

  /** The column names in scope, and how a double is written. */
  datatype Printer = Printer(cols: seq<Text>, doubles: U64 -> Text)

  // ---- Printing ----

  function Decimal(n: nat): (t: Text)
    ensures t != [] && forall i :: 0 <= i < |t| ==> IsDigit(t[i])
  {
    if n < 10 then [0x30 + n] else Decimal(n / 10) + [0x30 + n % 10]
  }

  function SignedDecimal(v: int): Text
  {
    if v < 0 then [DASH] + Decimal(-v) else Decimal(v)
  }

  /** `replace('\'', "''")`. */
  function Escaped(t: Text): Text
  {
    if t == [] then [] else (if t[0] == QUOTE then [QUOTE, QUOTE] else [t[0]]) + Escaped(t[1..])
  }

  /** `render_value`. */
  function RenderValue(v: Value, p: Printer): Text
  {
    match v
    case Null => Ascii("NULL")
    case Boolean(b) => if b then Ascii("TRUE") else Ascii("FALSE")
    case Integer(i) => SignedDecimal(i)
    case BigInt(n) => SignedDecimal(n)
    case Double(bits) => p.doubles(bits)
    case Varchar(t) => [QUOTE] + (Escaped(t) + [QUOTE])
  }

  /** `op_symbol`. */
  function OpSymbol(op: X.BinaryOperator): Text
  {
    match op
    case Eq => Ascii("=")
    case NotEq => Ascii("<>")
    case Lt => Ascii("<")
    case LtEq => Ascii("<=")
    case Gt => Ascii(">")
    case GtEq => Ascii(">=")
    case And => Ascii("AND")
    case Or => Ascii("OR")
    case Plus => Ascii("+")
    case Minus => Ascii("-")
    case Multiply => Ascii("*")
    case Divide => Ascii("/")
  }

  function ColumnName(i: nat, p: Printer): Text
  {
    if i < |p.cols| then p.cols[i] else Ascii("col") + Decimal(i)
  }

  /** `render_expr` and `render_unary`. */
  function Render(e: X.Expr, p: Printer): Text
    decreases e, 0
  {
    match e
    case Literal(v) => RenderValue(v, p)
    case SessionContext(name, _) => Ascii(name)
    case ColumnRef(i) => ColumnName(i, p)
    case Unary(op, x) => (if op == X.Not then Ascii("NOT ") else [DASH]) + Wrapped(x, p)
    case Binary(l, op, r) => Wrapped(l, p) + (Ascii(" ") + (OpSymbol(op) + (Ascii(" ") + Wrapped(r, p))))
    case IsNull(x, negated) => Wrapped(x, p) + (Ascii(" IS ") + ((if negated then Ascii("NOT ") else []) + Ascii("NULL")))
  }

  /** `wrapped`: operators are put in parentheses. */
  function Wrapped(e: X.Expr, p: Printer): Text
    decreases e, 1
  {
    if e.Binary? || e.Unary? || e.IsNull? then Ascii("(") + (Render(e, p) + Ascii(")")) else Render(e, p)
  }

  // ---- Which expressions can be read back ----

  predicate Word(t: Text)
  {
    t != [] && IsLetter(t[0]) && forall i :: 0 <= i < |t| ==> IsWord(t[i])
  }

  /** A column name that is neither a keyword nor the name of a session value. */
  predicate OrdinaryName(t: Text)
  {
    Word(t) && KeywordOf(Upper(t)).None? && SessionWord(t).None?
  }

  predicate Printable(e: X.Expr, p: Printer)
  {
    match e
    case Literal(v) => !v.Double? && (v.Integer? ==> v.i >= 0) && (v.BigInt? ==> v.n >= 0)
    case SessionContext(_, _) => false
    case ColumnRef(i) => i < |p.cols| ==> OrdinaryName(p.cols[i])
    case Unary(_, x) => Printable(x, p)
    case Binary(l, op, r) => op !in {X.Plus, X.Minus, X.Multiply, X.Divide} && Printable(l, p) && Printable(r, p)
    case IsNull(x, _) => Printable(x, p)
  }

  // ---- The tokens of a printed expression ----

  function ValueToken(v: Value): Token
    requires !v.Double?
  {
    match v
    case Null => NullWord
    case Boolean(b) => if b then True else False
    case Integer(i) => IntegerLiteral(i)
    case BigInt(n) => IntegerLiteral(n)
    case Varchar(t) => StringLiteral(t)
  }

  function OpToken(op: X.BinaryOperator): Token
  {
    match op
    case Eq => Eq
    case NotEq => NotEq
    case Lt => Lt
    case LtEq => LtEq
    case Gt => Gt
    case GtEq => GtEq
    case And => And
    case Or => Or
    case Plus => Plus
    case Minus => Minus
    case Multiply => Star
    case Divide => Slash
  }

  function Tokens(e: X.Expr, p: Printer): seq<Token>
    requires Printable(e, p)
    decreases e, 0
  {
    match e
    case Literal(v) => [ValueToken(v)]
    case ColumnRef(i) => [Identifier(ColumnName(i, p))]
    case Unary(op, x) => [if op == X.Not then Not else Minus] + WrappedTokens(x, p)
    case Binary(l, op, r) => WrappedTokens(l, p) + ([OpToken(op)] + WrappedTokens(r, p))
    case IsNull(x, negated) => WrappedTokens(x, p) + (if negated then [Is, Not, NullWord] else [Is, NullWord])
  }

  function WrappedTokens(e: X.Expr, p: Printer): (ts: seq<Token>)
    requires Printable(e, p)
    decreases e, 1
  {
    if e.Binary? || e.Unary? || e.IsNull? then [LParen] + (Tokens(e, p) + [RParen]) else Tokens(e, p)
  }

  // ---- Lexing it ----

  function Then(ts: seq<Token>, rest: Result<seq<Token>>): Result<seq<Token>>
  {
    if rest.Err? then Err else Ok(ts + rest.value)
  }

  lemma ThenThen(a: seq<Token>, b: seq<Token>, rest: Result<seq<Token>>)
    ensures Then(a, Then(b, rest)) == Then(a + b, rest)
  {
    if rest.Ok? { assert a + (b + rest.value) == (a + b) + rest.value; }
  }

  /** What follows a printed expression: the end, a blank or a closing parenthesis. */
  predicate Clean(r: Text)
  {
    r == [] || r[0] == 0x20 || r[0] == 0x29
  }

  lemma {:induction false} LexStep(s: Text, w: Text, r: Text, token: Token, d: Doubles)
    requires s == w + r && w != [] && LexOne(s, d) == Ok((token, |w|))
    requires !IsSpace(s[0]) && (s[0] == DASH && |s| > 1 ==> s[1] != DASH)
    ensures Lex(s, d) == Then([token], Lex(r, d))
  {
    assert SkipTrivia(s) == s && s[|w|..] == r;
  }

  lemma {:induction false} LexBlank(r: Text, d: Doubles)
    ensures Lex(Ascii(" ") + r, d) == Lex(r, d)
  {
    var s := Ascii(" ") + r;
    assert s[0] == 0x20 && s[1..] == r;
    assert SkipTrivia(s) == SkipTrivia(r);
  }

  lemma {:induction false} WordRunStops(w: Text, r: Text)
    requires (forall i :: 0 <= i < |w| ==> IsWord(w[i])) && (r == [] || !IsWord(r[0]))
    ensures WordRun(w + r) == |w|
  {
    if w != [] {
      assert (w + r)[0] == w[0] && (w + r)[1..] == w[1..] + r;
      WordRunStops(w[1..], r);
    } else {
      assert w + r == r;
    }
  }

  lemma {:induction false} LexWord(w: Text, r: Text, d: Doubles)
    requires Word(w) && (r == [] || !IsWord(r[0]))
    ensures Lex(w + r, d) == Then([WordToken(w)], Lex(r, d))
  {
    var s := w + r;
    WordRunStops(w, r);
    assert s[0] == w[0] && s[..|w|] == w;
    LexStep(s, w, r, WordToken(w), d);
  }

  lemma {:induction false} DigitRunStops(w: Text, r: Text)
    requires (forall i :: 0 <= i < |w| ==> IsDigit(w[i])) && (r == [] || !IsDigit(r[0]))
    ensures DigitRun(w + r) == |w|
  {
    if w != [] {
      assert (w + r)[0] == w[0] && (w + r)[1..] == w[1..] + r;
      DigitRunStops(w[1..], r);
    } else {
      assert w + r == r;
    }
  }

  lemma {:induction false} DecimalRoundTrip(n: nat)
    ensures FromDecimal(Decimal(n)) == n
  {
    if n >= 10 {
      DecimalRoundTrip(n / 10);
      assert Decimal(n)[..|Decimal(n)| - 1] == Decimal(n / 10);
    } else {
      assert Decimal(n)[..0] == [];
    }
  }

  lemma {:induction false} LexDecimal(n: nat, r: Text, d: Doubles)
    requires n < TWO_63 && Clean(r)
    ensures Lex(Decimal(n) + r, d) == Then([IntegerLiteral(n)], Lex(r, d))
  {
    var w := Decimal(n);
    var s := w + r;
    DigitRunStops(w, r);
    DecimalRoundTrip(n);
    assert s[0] == w[0] && s[..|w|] == w && (r != [] ==> s[|w|] == r[0]);
    LexStep(s, w, r, IntegerLiteral(n), d);
  }

  lemma {:induction false} StringBodyStops(t: Text, r: Text)
    requires r == [] || r[0] != QUOTE
    ensures StringBody(Escaped(t) + ([QUOTE] + r)) == Some((t, |Escaped(t)| + 1))
  {
    var tail := [QUOTE] + r;
    var s := Escaped(t) + tail;
    if t == [] {
      assert s == tail;
    } else {
      StringBodyStops(t[1..], r);
      var next := Escaped(t[1..]) + tail;
      assert t == [t[0]] + t[1..];
      if t[0] == QUOTE {
        assert s == [QUOTE, QUOTE] + next;
        assert s[2..] == next;
      } else {
        assert s == [t[0]] + next;
        assert s[1..] == next;
      }
    }
  }

  lemma {:induction false} LexQuoted(t: Text, r: Text, d: Doubles)
    requires Clean(r)
    ensures Lex([QUOTE] + (Escaped(t) + [QUOTE]) + r, d) == Then([StringLiteral(t)], Lex(r, d))
  {
    var w := [QUOTE] + (Escaped(t) + [QUOTE]);
    var s := w + r;
    StringBodyStops(t, r);
    assert s[1..] == Escaped(t) + ([QUOTE] + r);
    LexStep(s, w, r, StringLiteral(t), d);
  }

  // The words the printer writes.

  lemma {:induction false} AndIsRead()
    ensures Word(Ascii("AND")) && WordToken(Ascii("AND")) == And
  {
    var w := Ascii("AND");
    assert w[0] == 0x41 && w[1] == 0x4E && w[2] == 0x44;
    assert Upper(w) == w;
  }

  lemma {:induction false} OrIsRead()
    ensures Word(Ascii("OR")) && WordToken(Ascii("OR")) == Or
  {
    var w := Ascii("OR");
    assert w[0] == 0x4F && w[1] == 0x52;
    assert Upper(w) == w;
    assert Ascii("AS")[0] == 0x41 && Ascii("ON")[1] == 0x4E;
  }

  lemma {:induction false} NotIsRead()
    ensures Word(Ascii("NOT")) && WordToken(Ascii("NOT")) == Not
  {
    var w := Ascii("NOT");
    assert w[0] == 0x4E && w[1] == 0x4F && w[2] == 0x54;
    assert Upper(w) == w;
    assert Ascii("AND")[0] == 0x41;
  }

  lemma {:induction false} IsIsRead()
    ensures Word(Ascii("IS")) && WordToken(Ascii("IS")) == Is
  {
    var w := Ascii("IS");
    assert w[0] == 0x49 && w[1] == 0x53;
    assert Upper(w) == w;
    assert Ascii("AS")[0] == 0x41 && Ascii("ON")[0] == 0x4F && Ascii("OR")[0] == 0x4F;
  }

  lemma {:induction false} NullIsRead()
    ensures Word(Ascii("NULL")) && WordToken(Ascii("NULL")) == NullWord
  {
    var w := Ascii("NULL");
    assert w[0] == 0x4E && w[1] == 0x55 && w[2] == 0x4C && w[3] == 0x4C;
    assert Upper(w) == w;
    assert Ascii("FROM")[0] == 0x46 && Ascii("INTO")[0] == 0x49;
  }

  lemma {:induction false} TrueIsRead()
    ensures Word(Ascii("TRUE")) && WordToken(Ascii("TRUE")) == True
  {
    var w := Ascii("TRUE");
    assert w[0] == 0x54 && w[1] == 0x52 && w[2] == 0x55 && w[3] == 0x45;
    assert Upper(w) == w;
    assert Ascii("FROM")[0] == 0x46 && Ascii("INTO")[0] == 0x49 && Ascii("NULL")[0] == 0x4E;
  }

  lemma {:induction false} FalseIsRead()
    ensures Word(Ascii("FALSE")) && WordToken(Ascii("FALSE")) == False
  {
    var w := Ascii("FALSE");
    assert w[0] == 0x46 && w[1] == 0x41 && w[2] == 0x4C && w[3] == 0x53 && w[4] == 0x45;
    assert Upper(w) == w;
    assert Ascii("WHERE")[0] == 0x57 && Ascii("TABLE")[0] == 0x54 && Ascii("INDEX")[0] == 0x49;
  }

  /** The name printed for a column without one is an ordinary name. */
  lemma {:induction false} DefaultNameIsOrdinary(i: nat)
    ensures OrdinaryName(Ascii("col") + Decimal(i))
  {
    var t := Ascii("col") + Decimal(i);
    var w := Upper(t);
    assert t[0] == 0x63 && t[1] == 0x6F && t[2] == 0x6C;
    assert w[0] == 0x43 && w[1] == 0x4F && w[2] == 0x4C;
    forall k | 0 <= k < |t| ensures IsWord(t[k]) {
      if k >= 3 { assert t[k] == Decimal(i)[k - 3]; }
    }
    assert KeywordOf(w).None? by {
      assert Ascii("CREATE")[1] == 0x52 && Ascii("COMMIT")[2] == 0x4D;
      NotC(w);
    }
    NotSession(t);
  }

  lemma {:induction false} NotSession(t: Text)
    requires |t| > 1 && t[0] == 0x63 && t[1] == 0x6F
    ensures SessionWord(t).None?
  {
    var w := Upper(t);
    assert w[0] == 0x43 && w[1] == 0x4F;
    assert Ascii("CURRENT_CATALOG")[1] == 0x55 && Ascii("CURRENT_SCHEMA")[1] == 0x55 && Ascii("CURRENT_USER")[1] == 0x55;
    assert Ascii("USER")[0] == 0x55 && Ascii("SESSION_USER")[0] == 0x53;
  }

  /** Only two keywords start with a C. */
  lemma {:induction false} NotC(w: Text)
    requires w != [] && w[0] == 0x43 && w != Ascii("CREATE") && w != Ascii("COMMIT")
    ensures KeywordOf(w).None?
  {
    match |w| {
      case 2 => assert Ascii("AS")[0] == 0x41 && Ascii("ON")[0] == 0x4F && Ascii("OR")[0] == 0x4F && Ascii("IS")[0] == 0x49;
      case 3 => assert Ascii("AND")[0] == 0x41 && Ascii("NOT")[0] == 0x4E;
      case 4 => assert Ascii("FROM")[0] == 0x46 && Ascii("INTO")[0] == 0x49 && Ascii("NULL")[0] == 0x4E && Ascii("TRUE")[0] == 0x54;
      case 5 => NotC5(w);
      case 6 => assert Ascii("SELECT")[0] == 0x53 && Ascii("INSERT")[0] == 0x49 && Ascii("VALUES")[0] == 0x56;
      case _ => assert Ascii("EXPLAIN")[0] == 0x45 && Ascii("ROLLBACK")[0] == 0x52 && Ascii("TRANSACTION")[0] == 0x54;
    }
  }

  lemma {:induction false} NotC5(w: Text)
    requires |w| == 5 && w[0] == 0x43
    ensures KeywordOf5(w).None?
  {
    assert Ascii("WHERE")[0] == 0x57 && Ascii("TABLE")[0] == 0x54 && Ascii("INDEX")[0] == 0x49;
    assert Ascii("FALSE")[0] == 0x46 && Ascii("BEGIN")[0] == 0x42 && Ascii("START")[0] == 0x53;
  }

  lemma {:induction false} LexNull(r: Text, d: Doubles)
    requires Clean(r)
    ensures Lex(Ascii("NULL") + r, d) == Then([NullWord], Lex(r, d))
  {
    NullIsRead();
    LexWord(Ascii("NULL"), r, d);
  }

  lemma {:induction false} LexNot(r: Text, d: Doubles)
    ensures Lex(Ascii("NOT ") + r, d) == Then([Not], Lex(r, d))
  {
    NotIsRead();
    var rest := Ascii(" ") + r;
    assert rest[0] == 0x20;
    assert Ascii("NOT ") + r == Ascii("NOT") + rest;
    LexWord(Ascii("NOT"), rest, d);
    LexBlank(r, d);
  }

  lemma {:induction false} LexIs(r: Text, d: Doubles)
    ensures Lex(Ascii(" IS ") + r, d) == Then([Is], Lex(r, d))
  {
    IsIsRead();
    var rest := Ascii(" ") + r;
    assert rest[0] == 0x20;
    assert Ascii(" IS ") + r == Ascii(" ") + (Ascii("IS") + rest);
    LexBlank(Ascii("IS") + rest, d);
    LexWord(Ascii("IS"), rest, d);
    LexBlank(r, d);
  }

  lemma {:induction false} LexSymbol(op: X.BinaryOperator, r: Text, d: Doubles)
    requires op !in {X.Plus, X.Minus, X.Multiply, X.Divide} && r != [] && r[0] == 0x20
    ensures Lex(OpSymbol(op) + r, d) == Then([OpToken(op)], Lex(r, d))
  {
    var w := OpSymbol(op);
    if op == X.And {
      AndIsRead();
      LexWord(w, r, d);
    } else if op == X.Or {
      OrIsRead();
      LexWord(w, r, d);
    } else {
      LexComparison(op, r, d);
    }
  }

  lemma {:induction false} LexComparison(op: X.BinaryOperator, r: Text, d: Doubles)
    requires op in {X.Eq, X.NotEq, X.Lt, X.LtEq, X.Gt, X.GtEq} && r != [] && r[0] == 0x20
    ensures Lex(OpSymbol(op) + r, d) == Then([OpToken(op)], Lex(r, d))
  {
    var w := OpSymbol(op);
    var s := w + r;
    assert s[0] == w[0] && s[1] == if |w| == 1 then 0x20 else w[1];
    LexStep(s, w, r, OpToken(op), d);
  }

  lemma {:induction false} LexParens(r: Text, d: Doubles)
    ensures Lex(Ascii("(") + r, d) == Then([LParen], Lex(r, d))
    ensures Lex(Ascii(")") + r, d) == Then([RParen], Lex(r, d))
  {
    var open, close := Ascii("(") + r, Ascii(")") + r;
    assert open[0] == 0x28 && close[0] == 0x29;
    LexStep(open, Ascii("("), r, LParen, d);
    LexStep(close, Ascii(")"), r, RParen, d);
  }

  lemma {:induction false} LexDash(r: Text, d: Doubles)
    requires r != [] && r[0] != DASH
    ensures Lex([DASH] + r, d) == Then([Minus], Lex(r, d))
  {
    LexStep([DASH] + r, [DASH], r, Minus, d);
  }

  /** A wrapped expression starts with a parenthesis, a quote, a digit or a letter. */
  lemma {:induction false} WrappedStart(e: X.Expr, p: Printer)
    requires Printable(e, p)
    ensures Wrapped(e, p) != [] && Wrapped(e, p)[0] != DASH
  {
    if e.Binary? || e.Unary? || e.IsNull? {
      assert Wrapped(e, p)[0] == Ascii("(")[0];
    } else if e.ColumnRef? {
      assert e.index >= |p.cols| ==> ColumnName(e.index, p)[0] == Ascii("col")[0];
    } else {
      assert Ascii("NULL")[0] == 0x4E && Ascii("TRUE")[0] == 0x54 && Ascii("FALSE")[0] == 0x46;
    }
  }

  lemma {:induction false} LexValue(v: Value, p: Printer, r: Text, d: Doubles)
    requires Printable(X.Literal(v), p) && Clean(r)
    ensures Lex(RenderValue(v, p) + r, d) == Then([ValueToken(v)], Lex(r, d))
  {
    match v {
      case Null => LexNull(r, d);
      case Boolean(b) =>
        TrueIsRead();
        FalseIsRead();
        LexWord(RenderValue(v, p), r, d);
      case Integer(i) => LexDecimal(i, r, d);
      case BigInt(n) => LexDecimal(n, r, d);
      case Varchar(t) => LexQuoted(t, r, d);
    }
  }

  /** The lexer reads exactly the tokens of the printed expression. */
  lemma {:induction false} LexRender(e: X.Expr, p: Printer, r: Text, d: Doubles)
    requires Printable(e, p) && Clean(r)
    ensures Lex(Render(e, p) + r, d) == Then(Tokens(e, p), Lex(r, d))
    decreases e, 0
  {
    match e {
      case Literal(v) => LexValue(v, p, r, d);
      case ColumnRef(i) =>
        if i >= |p.cols| { DefaultNameIsOrdinary(i); }
        LexWord(ColumnName(i, p), r, d);
      case Unary(op, x) =>
        LexWrapped(x, p, r, d);
        WrappedStart(x, p);
        LexPrefix(op, Wrapped(x, p), r, d);
        ThenThen(Tokens(e, p)[..1], WrappedTokens(x, p), Lex(r, d));
      case Binary(a, op, b) =>
        var rest := Wrapped(b, p) + r;
        LexWrapped(b, p, r, d);
        LexInfix(Wrapped(a, p), op, Wrapped(b, p), r, d);
        LexWrapped(a, p, Ascii(" ") + (OpSymbol(op) + (Ascii(" ") + rest)), d);
        ThenThen([OpToken(op)], WrappedTokens(b, p), Lex(r, d));
        ThenThen(WrappedTokens(a, p), [OpToken(op)] + WrappedTokens(b, p), Lex(r, d));
      case IsNull(x, negated) =>
        LexSuffix(Wrapped(x, p), negated, r, d);
        LexWrapped(x, p, SuffixText(negated) + r, d);
        ThenThen(WrappedTokens(x, p), SuffixTokens(negated), Lex(r, d));
    }
  }

  lemma {:induction false} LexWrapped(e: X.Expr, p: Printer, r: Text, d: Doubles)
    requires Printable(e, p) && Clean(r)
    ensures Lex(Wrapped(e, p) + r, d) == Then(WrappedTokens(e, p), Lex(r, d))
    decreases e, 1
  {
    if e.Binary? || e.Unary? || e.IsNull? {
      assert (Ascii(")") + r)[0] == 0x29;
      LexRender(e, p, Ascii(")") + r, d);
      LexInParens(Render(e, p), Tokens(e, p), r, d);
    } else {
      LexRender(e, p, r, d);
    }
  }

  lemma {:induction false} LexInParens(t: Text, ts: seq<Token>, r: Text, d: Doubles)
    requires Lex(t + (Ascii(")") + r), d) == Then(ts, Lex(Ascii(")") + r, d))
    ensures Lex(Ascii("(") + (t + Ascii(")")) + r, d) == Then([LParen] + (ts + [RParen]), Lex(r, d))
  {
    var close := Ascii(")") + r;
    LexParens(r, d);
    LexParens(t + close, d);
    assert Ascii("(") + (t + Ascii(")")) + r == Ascii("(") + (t + close);
    ThenThen(ts, [RParen], Lex(r, d));
    ThenThen([LParen], ts + [RParen], Lex(r, d));
  }

  function SuffixText(negated: bool): Text
  {
    Ascii(" IS ") + ((if negated then Ascii("NOT ") else []) + Ascii("NULL"))
  }

  function SuffixTokens(negated: bool): seq<Token>
  {
    if negated then [Is, Not, NullWord] else [Is, NullWord]
  }

  lemma {:induction false} LexPrefix(op: X.UnaryOperator, w: Text, r: Text, d: Doubles)
    requires w != [] && w[0] != DASH
    ensures Lex((if op == X.Not then Ascii("NOT ") else [DASH]) + w + r, d)
         == Then([if op == X.Not then Not else Minus], Lex(w + r, d))
  {
    if op == X.Not {
      assert Ascii("NOT ") + w + r == Ascii("NOT ") + (w + r);
      LexNot(w + r, d);
    } else {
      assert [DASH] + w + r == [DASH] + (w + r) && (w + r)[0] == w[0];
      LexDash(w + r, d);
    }
  }

  lemma {:induction false} LexInfix(a: Text, op: X.BinaryOperator, b: Text, r: Text, d: Doubles)
    requires op !in {X.Plus, X.Minus, X.Multiply, X.Divide}
    ensures var rest := Ascii(" ") + (OpSymbol(op) + (Ascii(" ") + (b + r)));
            && a + (Ascii(" ") + (OpSymbol(op) + (Ascii(" ") + b))) + r == a + rest && Clean(rest)
            && Lex(rest, d) == Then([OpToken(op)], Lex(b + r, d))
  {
    var after := Ascii(" ") + (b + r);
    var rest := Ascii(" ") + (OpSymbol(op) + after);
    assert a + (Ascii(" ") + (OpSymbol(op) + (Ascii(" ") + b))) + r == a + rest;
    assert rest[0] == 0x20 && after[0] == 0x20;
    LexBlank(OpSymbol(op) + after, d);
    LexSymbol(op, after, d);
    LexBlank(b + r, d);
  }

  lemma {:induction false} LexSuffix(w: Text, negated: bool, r: Text, d: Doubles)
    requires Clean(r)
    ensures w + SuffixText(negated) + r == w + (SuffixText(negated) + r) && Clean(SuffixText(negated) + r)
    ensures Lex(SuffixText(negated) + r, d) == Then(SuffixTokens(negated), Lex(r, d))
  {
    var middle := if negated then Ascii("NOT ") else [];
    var rest := middle + (Ascii("NULL") + r);
    assert SuffixText(negated) + r == Ascii(" IS ") + rest;
    assert (Ascii(" IS ") + rest)[0] == Ascii(" IS ")[0] == 0x20;
    assert [Is] + [NullWord] == [Is, NullWord] && [Not] + [NullWord] == [Not, NullWord] && [Is] + [Not, NullWord] == [Is, Not, NullWord];
    LexIs(rest, d);
    LexNull(r, d);
    if negated {
      LexNot(Ascii("NULL") + r, d);
      ThenThen([Not], [NullWord], Lex(r, d));
      ThenThen([Is], [Not, NullWord], Lex(r, d));
    } else {
      assert rest == Ascii("NULL") + r;
      ThenThen([Is], [NullWord], Lex(r, d));
    }
  }
}
