/** The expression grammar by recursive descent, and the round trip with the printer. */
module SqlParser {
  import opened Bytes
  import opened Options
  import opened Memcomparable
  import X = Expressions
  import opened SqlText
  import opened ExplainText

  datatype Node =
    | Literal(value: Value)
    | SessionValue(session: SessionName)
    | Column(table: Option<Text>, column: Text)
    | Binary(left: Node, op: X.BinaryOperator, right: Node)
    | Unary(uop: X.UnaryOperator, operand: Node)
    | IsNull(tested: Node, negated: bool)
    | Placeholder(position: U32)

  /** What was parsed, and the tokens after it. */
  type Parsed = Result<(Node, seq<Token>)>

  predicate Within(r: Parsed, ts: seq<Token>)
  {
    r.Ok? ==> EofEnded(r.value.1) && |r.value.1| <= |ts|
  }

  /** `advance` stays on the last token. */
  function Advance(ts: seq<Token>): (r: seq<Token>)
    requires EofEnded(ts)
    ensures EofEnded(r) && |r| <= |ts| && (ts[0] != Eof ==> r == ts[1..])
  {
    if |ts| > 1 then ts[1..] else ts
  }

  function ComparisonOp(t: Token): Option<X.BinaryOperator>
  {
    match t
    case Eq => Some(X.Eq)
    case NotEq => Some(X.NotEq)
    case Lt => Some(X.Lt)
    case LtEq => Some(X.LtEq)
    case Gt => Some(X.Gt)
    case GtEq => Some(X.GtEq)
    case _ => None
  }

  function ParseOr(ts: seq<Token>): (r: Parsed)
    requires EofEnded(ts)
    ensures Within(r, ts)
    decreases |ts|, 10
  {
    match ParseAnd(ts)
    case Err => Err
    case Ok((left, rest)) => OrLoop(left, rest)
  }

  function OrLoop(left: Node, ts: seq<Token>): (r: Parsed)
    requires EofEnded(ts)
    ensures Within(r, ts)
    decreases |ts|, 9
  {
    if ts[0] != Or then Ok((left, ts)) else
      match ParseAnd(Advance(ts))
      case Err => Err
      case Ok((right, rest)) => OrLoop(Binary(left, X.Or, right), rest)
  }

  function ParseAnd(ts: seq<Token>): (r: Parsed)
    requires EofEnded(ts)
    ensures Within(r, ts)
    decreases |ts|, 8
  {
    match ParseNot(ts)
    case Err => Err
    case Ok((left, rest)) => AndLoop(left, rest)
  }

  function AndLoop(left: Node, ts: seq<Token>): (r: Parsed)
    requires EofEnded(ts)
    ensures Within(r, ts)
    decreases |ts|, 7
  {
    if ts[0] != And then Ok((left, ts)) else
      match ParseNot(Advance(ts))
      case Err => Err
      case Ok((right, rest)) => AndLoop(Binary(left, X.And, right), rest)
  }

  function ParseNot(ts: seq<Token>): (r: Parsed)
    requires EofEnded(ts)
    ensures Within(r, ts)
    decreases |ts|, 6
  {
    if ts[0] != Not then ParseIsNull(ts) else
      match ParseNot(Advance(ts))
      case Err => Err
      case Ok((x, rest)) => Ok((Unary(X.Not, x), rest))
  }

  function ParseIsNull(ts: seq<Token>): (r: Parsed)
    requires EofEnded(ts)
    ensures Within(r, ts)
    decreases |ts|, 5
  {
    match ParseComparison(ts)
    case Err => Err
    case Ok((x, rest)) => IsNullLoop(x, rest)
  }

  function IsNullLoop(x: Node, ts: seq<Token>): (r: Parsed)
    requires EofEnded(ts)
    ensures Within(r, ts)
    decreases |ts|, 4
  {
    if ts[0] != Is then Ok((x, ts)) else
      var after := Advance(ts);
      var rest := if after[0] == Not then Advance(after) else after;
      if rest[0] != NullWord then Err else IsNullLoop(IsNull(x, after[0] == Not), Advance(rest))
  }

  function ParseComparison(ts: seq<Token>): (r: Parsed)
    requires EofEnded(ts)
    ensures Within(r, ts)
    decreases |ts|, 3
  {
    match ParseUnary(ts)
    case Err => Err
    case Ok((left, rest)) => ComparisonLoop(left, rest)
  }

  function ComparisonLoop(left: Node, ts: seq<Token>): (r: Parsed)
    requires EofEnded(ts)
    ensures Within(r, ts)
    decreases |ts|, 2
  {
    if ComparisonOp(ts[0]).None? then Ok((left, ts)) else
      match ParseUnary(Advance(ts))
      case Err => Err
      case Ok((right, rest)) => ComparisonLoop(Binary(left, ComparisonOp(ts[0]).value, right), rest)
  }

  function ParseUnary(ts: seq<Token>): (r: Parsed)
    requires EofEnded(ts)
    ensures Within(r, ts)
    decreases |ts|, 1
  {
    if ts[0] != Minus then ParsePrimary(ts) else
      match ParseUnary(Advance(ts))
      case Err => Err
      case Ok((x, rest)) => Ok((Unary(X.Negate, x), rest))
  }

  /** The tokens that are an operand by themselves. */
  function OperandOf(t: Token): Option<Node>
  {
    match t
    case IntegerLiteral(n) => Some(Literal(BigInt(n)))
    case FloatLiteral(bits) => Some(Literal(Double(bits)))
    case StringLiteral(text) => Some(Literal(Varchar(text)))
    case True => Some(Literal(Boolean(true)))
    case False => Some(Literal(Boolean(false)))
    case NullWord => Some(Literal(Null))
    case Parameter(index) => Some(Placeholder(index))
    case _ => None
  }

  function ParsePrimary(ts: seq<Token>): (r: Parsed)
    requires EofEnded(ts)
    ensures Within(r, ts)
    decreases |ts|, 0
  {
    if OperandOf(ts[0]).Some? then Ok((OperandOf(ts[0]).value, Advance(ts)))
    else if ts[0].Identifier? then ParseName(ts[0].name, Advance(ts))
    else if ts[0] != LParen then Err
    else
      match ParseOr(Advance(ts))
      case Err => Err
      case Ok((x, rest)) => if rest[0] == RParen then Ok((x, Advance(rest))) else Err
  }

  /** A qualified column, a session value or a column. */
  function ParseName(name: Text, ts: seq<Token>): (r: Parsed)
    requires EofEnded(ts)
    ensures Within(r, ts)
  {
    if ts[0] == Dot then
      var after := Advance(ts);
      if after[0].Identifier? then Ok((Column(Some(name), after[0].name), Advance(after))) else Err
    else if ts[0] == LParen then
      var after := Advance(ts);
      if SessionFunction(name).Some? && after[0] == RParen then Ok((SessionValue(SessionFunction(name).value), Advance(after))) else Err
    else if SessionWord(name).Some? then Ok((SessionValue(SessionWord(name).value), ts))
    else Ok((Column(None, name), ts))
  }

  // ---- The round trip on tokens ----

  /** The unbound tree of a bound expression: columns by name, integers in their widest type. */
  function Surface(e: X.Expr, p: Printer): Node
    requires Printable(e, p)
  {
    match e
    case Literal(v) => Literal(if v.Integer? then BigInt(v.i) else v)
    case ColumnRef(i) => Column(None, ColumnName(i, p))
    case Unary(op, x) => Unary(op, Surface(x, p))
    case Binary(l, op, r) => Binary(Surface(l, p), op, Surface(r, p))
    case IsNull(x, negated) => IsNull(Surface(x, p), negated)
  }

  predicate NoOperand(t: Token)
  {
    t != LParen && t != Dot
  }

  predicate Ends(t: Token)
  {
    t == Eof || t == RParen
  }

  lemma {:induction false} NameIsOrdinary(i: nat, p: Printer)
    requires Printable(X.ColumnRef(i), p)
    ensures SessionWord(ColumnName(i, p)).None?
  {
    if i >= |p.cols| { DefaultNameIsOrdinary(i); }
  }

  // One level at a time: how the result of one level becomes the result of the levels above it.

  lemma {:induction false} FromUnary(ts: seq<Token>, x: Node, r: seq<Token>)
    requires EofEnded(ts) && EofEnded(r) && ParseUnary(ts) == Ok((x, r)) && ComparisonOp(r[0]).None?
    ensures ParseComparison(ts) == Ok((x, r))
  {
  }

  lemma {:induction false} FromComparison(ts: seq<Token>, x: Node, r: seq<Token>)
    requires EofEnded(ts) && EofEnded(r) && ParseComparison(ts) == Ok((x, r)) && r[0] != Is && ts[0] != Not
    ensures ParseNot(ts) == Ok((x, r))
  {
  }

  lemma {:induction false} FromNot(ts: seq<Token>, x: Node, r: seq<Token>)
    requires EofEnded(ts) && EofEnded(r) && ParseNot(ts) == Ok((x, r)) && r[0] != And
    ensures ParseAnd(ts) == Ok((x, r))
  {
  }

  lemma {:induction false} FromAnd(ts: seq<Token>, x: Node, r: seq<Token>)
    requires EofEnded(ts) && EofEnded(r) && ParseAnd(ts) == Ok((x, r)) && r[0] != Or
    ensures ParseOr(ts) == Ok((x, r))
  {
  }

  /** What ends an expression ends it at every level of the grammar. */
  lemma {:induction false} OrOfCompared(ts: seq<Token>, x: Node, r: seq<Token>)
    requires EofEnded(ts) && EofEnded(r) && Ends(r[0]) && ParseComparison(ts) == Ok((x, r)) && ts[0] != Not
    ensures ParseOr(ts) == Ok((x, r))
  {
    FromComparison(ts, x, r);
    FromNot(ts, x, r);
    FromAnd(ts, x, r);
  }

  lemma {:induction false} OrStep(ts: seq<Token>, a: Node, right: seq<Token>, b: Node, r: seq<Token>)
    requires EofEnded(ts) && EofEnded(right) && EofEnded(r) && r[0] != Or
    requires ParseAnd(ts) == Ok((a, [Or] + right)) && ParseAnd(right) == Ok((b, r))
    ensures ParseOr(ts) == Ok((Binary(a, X.Or, b), r))
  {
    var tail := [Or] + right;
    assert tail[0] == Or && tail[1..] == right;
    assert OrLoop(Binary(a, X.Or, b), r) == Ok((Binary(a, X.Or, b), r));
    assert OrLoop(a, tail) == OrLoop(Binary(a, X.Or, b), r);
  }

  lemma {:induction false} AndStep(ts: seq<Token>, a: Node, right: seq<Token>, b: Node, r: seq<Token>)
    requires EofEnded(ts) && EofEnded(right) && EofEnded(r) && r[0] != And
    requires ParseNot(ts) == Ok((a, [And] + right)) && ParseNot(right) == Ok((b, r))
    ensures ParseAnd(ts) == Ok((Binary(a, X.And, b), r))
  {
    var tail := [And] + right;
    assert tail[0] == And && tail[1..] == right;
    assert AndLoop(Binary(a, X.And, b), r) == Ok((Binary(a, X.And, b), r));
    assert AndLoop(a, tail) == AndLoop(Binary(a, X.And, b), r);
  }

  lemma {:induction false} ComparisonStep(ts: seq<Token>, a: Node, t: Token, op: X.BinaryOperator, right: seq<Token>, b: Node, r: seq<Token>)
    requires EofEnded(ts) && EofEnded(right) && EofEnded(r) && ComparisonOp(r[0]).None? && ComparisonOp(t) == Some(op)
    requires ParseUnary(ts) == Ok((a, [t] + right)) && ParseUnary(right) == Ok((b, r))
    ensures ParseComparison(ts) == Ok((Binary(a, op, b), r))
  {
    var tail := [t] + right;
    assert tail[0] == t && tail[1..] == right;
    assert ComparisonLoop(Binary(a, op, b), r) == Ok((Binary(a, op, b), r));
    assert ComparisonLoop(a, tail) == ComparisonLoop(Binary(a, op, b), r);
  }

  lemma {:induction false} IsNullStep(ts: seq<Token>, x: Node, negated: bool, r: seq<Token>)
    requires EofEnded(ts) && EofEnded(r) && r[0] != Is && ts[0] != Not
    requires ParseComparison(ts) == Ok((x, SuffixTokens(negated) + r))
    ensures ParseNot(ts) == Ok((IsNull(x, negated), r))
  {
    var tail := SuffixTokens(negated) + r;
    assert tail[0] == Is && tail[1..] == SuffixTokens(negated)[1..] + r;
    var rest := [NullWord] + r;
    if negated { assert tail[1..][1..] == rest; } else { assert tail[1..] == rest; }
    assert rest[1..] == r;
    assert IsNullLoop(IsNull(x, negated), r) == Ok((IsNull(x, negated), r));
    assert IsNullLoop(x, tail) == IsNullLoop(IsNull(x, negated), r);
  }

  lemma {:induction false} NotStep(ts: seq<Token>, x: Node, r: seq<Token>)
    requires EofEnded(ts) && ParseNot(ts) == Ok((x, r))
    ensures EofEnded([Not] + ts) && ParseNot([Not] + ts) == Ok((Unary(X.Not, x), r))
  {
    assert ([Not] + ts)[1..] == ts;
  }

  lemma {:induction false} MinusStep(ts: seq<Token>, x: Node, r: seq<Token>)
    requires EofEnded(ts) && ParseUnary(ts) == Ok((x, r))
    ensures EofEnded([Minus] + ts) && ParseUnary([Minus] + ts) == Ok((Unary(X.Negate, x), r))
  {
    assert ([Minus] + ts)[1..] == ts;
  }

  lemma {:induction false} ParenStep(ts: seq<Token>, x: Node, r: seq<Token>)
    requires EofEnded(ts) && EofEnded(r) && ParseOr(ts) == Ok((x, [RParen] + r))
    ensures EofEnded([LParen] + ts) && ParsePrimary([LParen] + ts) == Ok((x, r))
  {
    assert ([LParen] + ts)[1..] == ts && ([RParen] + r)[1..] == r;
  }

  /** A wrapped expression is one operand. */
  lemma {:induction false} UnaryOfWrapped(e: X.Expr, p: Printer, r: seq<Token>)
    requires Printable(e, p) && EofEnded(r) && NoOperand(r[0])
    ensures EofEnded(WrappedTokens(e, p) + r) && ParseUnary(WrappedTokens(e, p) + r) == Ok((Surface(e, p), r))
    ensures (WrappedTokens(e, p) + r)[0] != Not
    decreases e, 3
  {
    if e.Binary? || e.Unary? || e.IsNull? {
      OrOfTokens(e, p, [RParen] + r);
      InParens(Tokens(e, p), Surface(e, p), r);
    } else {
      OperandStep(e, p, r);
    }
  }

  lemma {:induction false} InParens(inner: seq<Token>, x: Node, r: seq<Token>)
    requires EofEnded(r) && EofEnded(inner + ([RParen] + r)) && ParseOr(inner + ([RParen] + r)) == Ok((x, [RParen] + r))
    ensures var ts := [LParen] + (inner + [RParen]) + r; EofEnded(ts) && ParseUnary(ts) == Ok((x, r)) && ts[0] != Not
  {
    var ts := [LParen] + (inner + [RParen]) + r;
    assert ts == [LParen] + (inner + ([RParen] + r));
    ParenStep(inner + ([RParen] + r), x, r);
  }

  lemma {:induction false} OperandStep(e: X.Expr, p: Printer, r: seq<Token>)
    requires Printable(e, p) && (e.Literal? || e.ColumnRef?) && EofEnded(r) && NoOperand(r[0])
    ensures EofEnded(Tokens(e, p) + r) && ParseUnary(Tokens(e, p) + r) == Ok((Surface(e, p), r))
    ensures (Tokens(e, p) + r)[0] != Not
  {
    var ts := Tokens(e, p) + r;
    assert ts[1..] == r && ts[|ts| - 1] == r[|r| - 1];
    if e.ColumnRef? { NameIsOrdinary(e.index, p); }
  }

  lemma {:induction false} NotOfWrapped(e: X.Expr, p: Printer, r: seq<Token>)
    requires Printable(e, p) && EofEnded(r) && NoOperand(r[0]) && ComparisonOp(r[0]).None? && r[0] != Is
    ensures EofEnded(WrappedTokens(e, p) + r) && ParseNot(WrappedTokens(e, p) + r) == Ok((Surface(e, p), r))
    decreases e, 4
  {
    var ts := WrappedTokens(e, p) + r;
    UnaryOfWrapped(e, p, r);
    FromUnary(ts, Surface(e, p), r);
    FromComparison(ts, Surface(e, p), r);
  }

  /** A whole printed expression is read up to what ends it. */
  lemma {:induction false} OrOfTokens(e: X.Expr, p: Printer, r: seq<Token>)
    requires Printable(e, p) && EofEnded(r) && Ends(r[0])
    ensures EofEnded(Tokens(e, p) + r) && ParseOr(Tokens(e, p) + r) == Ok((Surface(e, p), r))
    decreases e, 2
  {
    var ts, x := Tokens(e, p) + r, Surface(e, p);
    match e {
      case Unary(_, _) =>
        OrOfUnary(e, p, r);
      case Binary(_, op, _) =>
        if op == X.Or {
          OrOfOr(e, p, r);
        } else if op == X.And {
          OrOfAnd(e, p, r);
        } else {
          OrOfComparison(e, p, OpToken(op), r);
        }
      case IsNull(_, _) =>
        OrOfIsNull(e, p, r);
      case _ =>
        OperandStep(e, p, r);
        FromUnary(ts, x, r);
        OrOfCompared(ts, x, r);
    }
  }

  lemma {:induction false} OrOfUnary(e: X.Expr, p: Printer, r: seq<Token>)
    requires Printable(e, p) && e.Unary? && EofEnded(r) && Ends(r[0])
    ensures EofEnded(Tokens(e, p) + r) && ParseOr(Tokens(e, p) + r) == Ok((Surface(e, p), r))
    decreases e, 0
  {
    var ts, y := Tokens(e, p) + r, e.operand;
    var rest := WrappedTokens(y, p) + r;
    if e.uop == X.Not {
      assert ts == [Not] + rest;
      NotOfWrapped(y, p, r);
      OrOfNot(rest, Surface(y, p), r);
    } else {
      assert ts == [Minus] + rest;
      UnaryOfWrapped(y, p, r);
      OrOfMinus(rest, Surface(y, p), r);
    }
  }

  lemma {:induction false} OrOfNot(ts: seq<Token>, x: Node, r: seq<Token>)
    requires EofEnded(ts) && EofEnded(r) && ParseNot(ts) == Ok((x, r)) && Ends(r[0])
    ensures EofEnded([Not] + ts) && ParseOr([Not] + ts) == Ok((Unary(X.Not, x), r))
  {
    NotStep(ts, x, r);
    FromNot([Not] + ts, Unary(X.Not, x), r);
    FromAnd([Not] + ts, Unary(X.Not, x), r);
  }

  lemma {:induction false} OrOfMinus(ts: seq<Token>, x: Node, r: seq<Token>)
    requires EofEnded(ts) && EofEnded(r) && ParseUnary(ts) == Ok((x, r)) && Ends(r[0])
    ensures EofEnded([Minus] + ts) && ParseOr([Minus] + ts) == Ok((Unary(X.Negate, x), r))
  {
    MinusStep(ts, x, r);
    FromUnary([Minus] + ts, Unary(X.Negate, x), r);
    OrOfCompared([Minus] + ts, Unary(X.Negate, x), r);
  }

  lemma {:induction false} OrOfIsNull(e: X.Expr, p: Printer, r: seq<Token>)
    requires Printable(e, p) && e.IsNull? && EofEnded(r) && Ends(r[0])
    ensures EofEnded(Tokens(e, p) + r) && ParseOr(Tokens(e, p) + r) == Ok((Surface(e, p), r))
    decreases e, 0
  {
    var ts, x, y := Tokens(e, p) + r, Surface(e, p), e.tested;
    var tail := SuffixTokens(e.negated) + r;
    assert ts == WrappedTokens(y, p) + tail;
    UnaryOfWrapped(y, p, tail);
    FromUnary(ts, Surface(y, p), tail);
    IsNullStep(ts, Surface(y, p), e.negated, r);
    FromNot(ts, x, r);
    FromAnd(ts, x, r);
  }

  /** The left operand of AND and of OR is read up to the operator. */
  lemma {:induction false} LeftOperand(e: X.Expr, p: Printer, right: seq<Token>, ts: seq<Token>)
    requires Printable(e, p) && e.Binary? && (e.op == X.And || e.op == X.Or) && EofEnded(right)
    requires ts == WrappedTokens(e.left, p) + ([OpToken(e.op)] + right)
    ensures EofEnded(ts) && ParseNot(ts) == Ok((Surface(e.left, p), [OpToken(e.op)] + right))
    decreases e, 0
  {
    var tail := [OpToken(e.op)] + right;
    assert tail[0] == OpToken(e.op) && tail[|tail| - 1] == right[|right| - 1];
    NotOfWrapped(e.left, p, tail);
  }

  lemma {:induction false} InfixTokens(e: X.Expr, p: Printer, r: seq<Token>)
    requires Printable(e, p) && e.Binary?
    ensures Tokens(e, p) + r == WrappedTokens(e.left, p) + ([OpToken(e.op)] + (WrappedTokens(e.right, p) + r))
  {
  }

  lemma {:induction false} OrOfOr(e: X.Expr, p: Printer, r: seq<Token>)
    requires Printable(e, p) && e.Binary? && e.op == X.Or && EofEnded(r) && Ends(r[0])
    ensures EofEnded(Tokens(e, p) + r) && ParseOr(Tokens(e, p) + r) == Ok((Surface(e, p), r))
    decreases e, 1
  {
    var ts, right := Tokens(e, p) + r, WrappedTokens(e.right, p) + r;
    InfixTokens(e, p, r);
    NotOfWrapped(e.right, p, r);
    LeftOperand(e, p, right, ts);
    OrOfTwo(ts, Surface(e.left, p), right, Surface(e.right, p), r);
  }

  lemma {:induction false} OrOfTwo(ts: seq<Token>, a: Node, right: seq<Token>, b: Node, r: seq<Token>)
    requires EofEnded(ts) && EofEnded(right) && EofEnded(r) && Ends(r[0])
    requires ParseNot(ts) == Ok((a, [Or] + right)) && ParseNot(right) == Ok((b, r))
    ensures ParseOr(ts) == Ok((Binary(a, X.Or, b), r))
  {
    var tail := [Or] + right;
    assert tail[0] == Or && tail[|tail| - 1] == right[|right| - 1];
    FromNot(ts, a, tail);
    FromNot(right, b, r);
    OrStep(ts, a, right, b, r);
  }

  lemma {:induction false} OrOfAnd(e: X.Expr, p: Printer, r: seq<Token>)
    requires Printable(e, p) && e.Binary? && e.op == X.And && EofEnded(r) && Ends(r[0])
    ensures EofEnded(Tokens(e, p) + r) && ParseOr(Tokens(e, p) + r) == Ok((Surface(e, p), r))
    decreases e, 1
  {
    var ts, right := Tokens(e, p) + r, WrappedTokens(e.right, p) + r;
    InfixTokens(e, p, r);
    NotOfWrapped(e.right, p, r);
    LeftOperand(e, p, right, ts);
    AndOfTwo(ts, Surface(e.left, p), right, Surface(e.right, p), r);
  }

  lemma {:induction false} AndOfTwo(ts: seq<Token>, a: Node, right: seq<Token>, b: Node, r: seq<Token>)
    requires EofEnded(ts) && EofEnded(right) && EofEnded(r) && Ends(r[0])
    requires ParseNot(ts) == Ok((a, [And] + right)) && ParseNot(right) == Ok((b, r))
    ensures ParseOr(ts) == Ok((Binary(a, X.And, b), r))
  {
    AndStep(ts, a, right, b, r);
    FromAnd(ts, Binary(a, X.And, b), r);
  }

  lemma {:induction false} OrOfComparison(e: X.Expr, p: Printer, t: Token, r: seq<Token>)
    requires Printable(e, p) && e.Binary? && EofEnded(r) && Ends(r[0]) && ComparisonOp(t) == Some(e.op) && NoOperand(t)
    requires Tokens(e, p) == WrappedTokens(e.left, p) + ([t] + WrappedTokens(e.right, p))
    ensures EofEnded(Tokens(e, p) + r) && ParseOr(Tokens(e, p) + r) == Ok((Surface(e, p), r))
    decreases e, 0
  {
    var ts, right := Tokens(e, p) + r, WrappedTokens(e.right, p) + r;
    var tail := [t] + right;
    assert ts == WrappedTokens(e.left, p) + tail;
    assert tail[0] == t && tail[|tail| - 1] == r[|r| - 1];
    UnaryOfWrapped(e.left, p, tail);
    UnaryOfWrapped(e.right, p, r);
    ComparedOperands(ts, Surface(e.left, p), t, e.op, right, Surface(e.right, p), r);
  }

  lemma {:induction false} ComparedOperands(ts: seq<Token>, a: Node, t: Token, op: X.BinaryOperator, right: seq<Token>, b: Node, r: seq<Token>)
    requires EofEnded(ts) && EofEnded(right) && EofEnded(r) && Ends(r[0]) && ts[0] != Not && ComparisonOp(t) == Some(op)
    requires ParseUnary(ts) == Ok((a, [t] + right)) && ParseUnary(right) == Ok((b, r))
    ensures ParseOr(ts) == Ok((Binary(a, op, b), r))
  {
    ComparisonStep(ts, a, t, op, right, b, r);
    OrOfCompared(ts, Binary(a, op, b), r);
  }

  /** Parsing the printed text of an expression gives the expression back. */
  lemma {:induction false} PrintedTextParsesBack(e: X.Expr, p: Printer, d: Doubles)
    requires Printable(e, p)
    ensures Lex(Render(e, p), d).Ok? && EofEnded(Lex(Render(e, p), d).value)
    ensures ParseOr(Lex(Render(e, p), d).value) == Ok((Surface(e, p), [Eof]))
  {
    LexRender(e, p, [], d);
    assert Render(e, p) + [] == Render(e, p);
    assert Lex([], d) == Ok([Eof]);
    OrOfTokens(e, p, [Eof]);
  }

  // ---- The parser object ----

  ghost predicate Reads(spec: Parsed, r: Result<Node>, rest: seq<Token>)
  {
    if spec.Err? then r.Err? else r == Ok(spec.value.0) && rest == spec.value.1
  }

  class Parser {
    const tokens: seq<Token>
    var pos: nat

    constructor (ts: seq<Token>)
      requires EofEnded(ts)
      ensures Valid() && tokens == ts && pos == 0
    {
      tokens, pos := ts, 0;
    }

    ghost predicate Valid()
      reads this
    {
      EofEnded(tokens) && pos < |tokens|
    }

    ghost function Rest(): (r: seq<Token>)
      requires Valid()
      reads this
      ensures EofEnded(r) && r[0] == tokens[pos]
    {
      tokens[pos..]
    }

    /** `advance`. */
    method Step()
      requires Valid()
      modifies this`pos
      ensures Valid() && pos >= old(pos) && Rest() == Advance(old(Rest())) && (old(tokens[pos]) != Eof ==> pos == old(pos) + 1)
    {
      if pos + 1 < |tokens| { pos := pos + 1; }
    }

    /** `parse_or`. */
    method ReadOr() returns (r: Result<Node>)
      requires Valid()
      modifies this`pos
      ensures Valid() && pos >= old(pos) && Reads(ParseOr(old(Rest())), r, Rest())
      decreases |tokens| - pos, 10
    {
      ghost var start := Rest();
      r := ReadAnd();
      if r.Err? { return; }
      while tokens[pos] == Or
        invariant Valid() && pos >= old(pos) && r.Ok? && ParseOr(start) == OrLoop(r.value, Rest())
        decreases |tokens| - pos
      {
        Step();
        var right := ReadAnd();
        if right.Err? { return Err; }
        r := Ok(Binary(r.value, X.Or, right.value));
      }
    }

    /** `parse_and`. */
    method ReadAnd() returns (r: Result<Node>)
      requires Valid()
      modifies this`pos
      ensures Valid() && pos >= old(pos) && Reads(ParseAnd(old(Rest())), r, Rest())
      decreases |tokens| - pos, 8
    {
      ghost var start := Rest();
      r := ReadNot();
      if r.Err? { return; }
      while tokens[pos] == And
        invariant Valid() && pos >= old(pos) && r.Ok? && ParseAnd(start) == AndLoop(r.value, Rest())
        decreases |tokens| - pos
      {
        Step();
        var right := ReadNot();
        if right.Err? { return Err; }
        r := Ok(Binary(r.value, X.And, right.value));
      }
    }

    /** `parse_not`. */
    method ReadNot() returns (r: Result<Node>)
      requires Valid()
      modifies this`pos
      ensures Valid() && pos >= old(pos) && Reads(ParseNot(old(Rest())), r, Rest())
      decreases |tokens| - pos, 6
    {
      if tokens[pos] == Not {
        Step();
        r := ReadNot();
        if r.Ok? { r := Ok(Unary(X.Not, r.value)); }
      } else {
        r := ReadIsNull();
      }
    }

    /** `parse_is_null`. */
    method ReadIsNull() returns (r: Result<Node>)
      requires Valid()
      modifies this`pos
      ensures Valid() && pos >= old(pos) && Reads(ParseIsNull(old(Rest())), r, Rest())
      decreases |tokens| - pos, 5
    {
      ghost var start := Rest();
      r := ReadComparison();
      if r.Err? { return; }
      while tokens[pos] == Is
        invariant Valid() && pos >= old(pos) && r.Ok? && ParseIsNull(start) == IsNullLoop(r.value, Rest())
        decreases |tokens| - pos
      {
        Step();
        var negated := tokens[pos] == Not;
        if negated { Step(); }
        if tokens[pos] != NullWord { return Err; }
        Step();
        r := Ok(IsNull(r.value, negated));
      }
    }

    /** `parse_comparison`. */
    method ReadComparison() returns (r: Result<Node>)
      requires Valid()
      modifies this`pos
      ensures Valid() && pos >= old(pos) && Reads(ParseComparison(old(Rest())), r, Rest())
      decreases |tokens| - pos, 3
    {
      ghost var start := Rest();
      r := ReadUnary();
      if r.Err? { return; }
      while ComparisonOp(tokens[pos]).Some?
        invariant Valid() && pos >= old(pos) && r.Ok? && ParseComparison(start) == ComparisonLoop(r.value, Rest())
        decreases |tokens| - pos
      {
        r := ReadOperand(r.value);
        if r.Err? { return; }
      }
    }

    /** One turn of that loop: an operator and its right operand. */
    method ReadOperand(left: Node) returns (r: Result<Node>)
      requires Valid() && ComparisonOp(tokens[pos]).Some?
      modifies this`pos
      ensures Valid() && pos > old(pos)
      ensures ComparisonLoop(left, old(Rest())) == if r.Ok? then ComparisonLoop(r.value, Rest()) else Err
      decreases |tokens| - pos, 2
    {
      var op := ComparisonOp(tokens[pos]).value;
      Step();
      var right := ReadUnary();
      if right.Err? { return Err; }
      r := Ok(Binary(left, op, right.value));
    }

    /** `parse_unary`. */
    method ReadUnary() returns (r: Result<Node>)
      requires Valid()
      modifies this`pos
      ensures Valid() && pos >= old(pos) && Reads(ParseUnary(old(Rest())), r, Rest())
      decreases |tokens| - pos, 1
    {
      if tokens[pos] == Minus {
        Step();
        r := ReadUnary();
        if r.Ok? { r := Ok(Unary(X.Negate, r.value)); }
      } else {
        r := ReadPrimary();
      }
    }

    /** `parse_primary`. */
    method ReadPrimary() returns (r: Result<Node>)
      requires Valid()
      modifies this`pos
      ensures Valid() && pos >= old(pos) && Reads(ParsePrimary(old(Rest())), r, Rest())
      decreases |tokens| - pos, 0
    {
      var token := tokens[pos];
      var operand := OperandOf(token);
      if operand.Some? {
        Step();
        return Ok(operand.value);
      }
      if token.Identifier? {
        Step();
        r := ReadName(token.name);
        return;
      }
      if token != LParen { return Err; }
      Step();
      r := ReadOr();
      if r.Ok? {
        if tokens[pos] != RParen { return Err; }
        Step();
      }
    }

    method ReadName(name: Text) returns (r: Result<Node>)
      requires Valid()
      modifies this`pos
      ensures Valid() && pos >= old(pos) && Reads(ParseName(name, old(Rest())), r, Rest())
    {
      if tokens[pos] == Dot {
        Step();
        if !tokens[pos].Identifier? { return Err; }
        r := Ok(Column(Some(name), tokens[pos].name));
        Step();
      } else if tokens[pos] == LParen {
        if SessionFunction(name).None? { return Err; }
        Step();
        if tokens[pos] != RParen { return Err; }
        Step();
        r := Ok(SessionValue(SessionFunction(name).value));
      } else {
        var session := SessionWord(name);
        r := Ok(if session.Some? then SessionValue(session.value) else Column(None, name));
      }
    }
  }

  /** Print, lex and parse: the parser object ends on Eof with the tree that was printed. */
  method ReadBack(e: X.Expr, p: Printer, d: Doubles) returns (r: Result<Node>)
    requires Printable(e, p)
    ensures r == Ok(Surface(e, p))
  {
    PrintedTextParsesBack(e, p, d);
    var tokens := Lex(Render(e, p), d).value;
    var parser := new Parser(tokens);
    assert tokens[0..] == tokens;
    r := parser.ReadOr();
    assert parser.tokens[parser.pos] == Eof;
  }
}
