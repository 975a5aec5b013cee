/** Bound expressions and their evaluation in three-valued logic. */
module Expressions {
  import opened Options
  import opened Memcomparable

  datatype BinaryOperator = And | Or | Eq | NotEq | Lt | LtEq | Gt | GtEq | Plus | Minus | Multiply | Divide

  datatype UnaryOperator = Not | Negate

  datatype Expr =
    | Literal(value: Value)
    | ColumnRef(index: nat)
    | Binary(left: Expr, op: BinaryOperator, right: Expr)
    | Unary(uop: UnaryOperator, operand: Expr)
    | IsNull(tested: Expr, negated: bool)
    | SessionContext(name: string, current: Value)

  type Row = seq<Value>

  function Evaluate(e: Expr, row: Row): Result<Value>
  {
    match e
    case Literal(v) => Ok(v)
    case SessionContext(_, v) => Ok(v)
    case ColumnRef(i) => if i < |row| then Ok(row[i]) else Err
    case Unary(op, x) => (match Evaluate(x, row) case Err => Err case Ok(v) => EvaluateUnary(op, v))
    case Binary(l, op, r) =>
      if op in {Plus, Minus, Multiply, Divide} then Err else
        (match (Evaluate(l, row), Evaluate(r, row))
         case (Ok(a), Ok(b)) => EvaluateBinary(a, op, b)
         case _ => Err)
    case IsNull(x, negated) => (match Evaluate(x, row) case Err => Err case Ok(v) => Ok(Boolean(v.Null? != negated)))
  }

  /** Negating the smallest integer wraps around to itself, as it does in a release build. */
  function EvaluateUnary(op: UnaryOperator, v: Value): Result<Value>
  {
    match (op, v)
    case (_, Null) => Ok(Null)
    case (Not, Boolean(b)) => Ok(Boolean(!b))
    case (Negate, Integer(i)) => Ok(Integer(if i == -TWO_31 then i else -i))
    case (Negate, BigInt(n)) => Ok(BigInt(if n == -TWO_63 then n else -n))
    case (Negate, Double(bits)) => Ok(Double(if bits >= TWO_63 then bits - TWO_63 else bits + TWO_63))
    case _ => Err
  }

  function EvaluateBinary(a: Value, op: BinaryOperator, b: Value): Result<Value>
  {
    match op
    case And => ThreeValuedAnd(a, b)
    case Or => ThreeValuedOr(a, b)
    case _ =>
      match Compare(a, b)
      case Err => Err
      case Ok(None) => Ok(Null)
      case Ok(Some(o)) => Ok(Boolean(MatchesComparison(op, o)))
  }

  predicate MatchesComparison(op: BinaryOperator, o: Ordering)
  {
    match op
    case Eq => o == Equal
    case NotEq => o != Equal
    case Lt => o == Below
    case LtEq => o != Above
    case Gt => o == Above
    case GtEq => o != Below
    case _ => false
  }

  function AsBool(v: Value): Result<Option<bool>>
  {
    match v
    case Null => Ok(None)
    case Boolean(b) => Ok(Some(b))
    case _ => Err
  }

  function ThreeValuedAnd(a: Value, b: Value): Result<Value>
  {
    match (AsBool(a), AsBool(b))
    case (Ok(x), Ok(y)) =>
      if x == Some(false) || y == Some(false) then Ok(Boolean(false))
      else if x == Some(true) && y == Some(true) then Ok(Boolean(true))
      else Ok(Null)
    case _ => Err
  }

  function ThreeValuedOr(a: Value, b: Value): Result<Value>
  {
    match (AsBool(a), AsBool(b))
    case (Ok(x), Ok(y)) =>
      if x == Some(true) || y == Some(true) then Ok(Boolean(true))
      else if x == Some(false) && y == Some(false) then Ok(Boolean(false))
      else Ok(Null)
    case _ => Err
  }

  predicate IsTrue(e: Expr, row: Row)
  {
    Evaluate(e, row) == Ok(Boolean(true))
  }

  // ---- Conjuncts ----

  function Conjuncts(e: Expr): seq<Expr>
  {
    if e.Binary? && e.op == And then Conjuncts(e.left) + Conjuncts(e.right) else [e]
  }

  /** `flatten_and_conjuncts`. */
  method FlattenAndConjuncts(e: Expr, into: seq<Expr>) returns (out: seq<Expr>)
    ensures out == into + Conjuncts(e)
  {
    if e.Binary? && e.op == And {
      out := FlattenAndConjuncts(e.left, into);
      out := FlattenAndConjuncts(e.right, out);
    } else {
      out := into + [e];
    }
  }

  predicate AllTrue(es: seq<Expr>, row: Row)
  {
    forall i :: 0 <= i < |es| ==> IsTrue(es[i], row)
  }

  lemma {:induction false} AllTrueOfBoth(a: seq<Expr>, b: seq<Expr>, row: Row)
    ensures AllTrue(a + b, row) <==> AllTrue(a, row) && AllTrue(b, row)
  {
    assert forall i :: 0 <= i < |a| ==> (a + b)[i] == a[i];
    assert forall i :: 0 <= i < |b| ==> (a + b)[|a| + i] == b[i];
  }

  lemma {:induction false} AndIsTrue(e: Expr, row: Row)
    requires e.Binary? && e.op == And
    ensures IsTrue(e, row) <==> IsTrue(e.left, row) && IsTrue(e.right, row)
  {
  }

  /** A predicate holds exactly when every conjunct of it does. */
  lemma {:induction false} TrueConjuncts(e: Expr, row: Row)
    ensures IsTrue(e, row) <==> AllTrue(Conjuncts(e), row)
  {
    if e.Binary? && e.op == And {
      TrueConjuncts(e.left, row);
      TrueConjuncts(e.right, row);
      AllTrueOfBoth(Conjuncts(e.left), Conjuncts(e.right), row);
      AndIsTrue(e, row);
    } else {
      assert Conjuncts(e)[0] == e;
    }
  }
}
