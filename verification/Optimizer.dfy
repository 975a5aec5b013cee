/** The index-scan rule: a filter over a table scan may read an index range instead. */
module Optimizer {
  import opened Options
  import opened KeyOrder
  import opened Memcomparable
  import opened Expressions

  type TableId = nat
  type IndexId = nat

  datatype Plan =
    | OneRow
    | SeqScan(table: TableId)
    | IndexScan(index: IndexId, of: TableId, start: Option<Key>, end: Option<Key>)
    | Filter(condition: Expr, input: Plan)
    | Projection(expressions: seq<Expr>, input: Plan)
    | Join(left: Plan, right: Plan, on: Expr)
    | Statement(text: string)

  datatype IndexInfo = IndexInfo(id: IndexId, column: nat)

  /** The catalog's indexes of each table, in creation order. */
  type Catalog = map<TableId, seq<IndexInfo>>

  function FirstOn(infos: seq<IndexInfo>, column: nat): Option<IndexInfo>
  {
    if infos == [] then None else if infos[0].column == column then Some(infos[0]) else FirstOn(infos[1..], column)
  }

  /** `index_for_column`. */
  function IndexForColumn(catalog: Catalog, table: TableId, column: nat): Option<IndexInfo>
  {
    if table in catalog then FirstOn(catalog[table], column) else None
  }

  lemma {:induction false} FirstOnIsListed(infos: seq<IndexInfo>, column: nat)
    requires FirstOn(infos, column).Some?
    ensures FirstOn(infos, column).value in infos && FirstOn(infos, column).value.column == column
  {
    if infos[0].column != column { FirstOnIsListed(infos[1..], column); }
  }

  // ---- Bounds from conjuncts ----

  predicate IsBound(op: BinaryOperator)
  {
    op in {Eq, Lt, LtEq, Gt, GtEq}
  }

  /** `column_and_literal`: does the conjunct compare a column with a literal on its right? */
  predicate Compares(e: Expr)
  {
    e.Binary? && e.left.ColumnRef? && e.right.Literal? && IsBound(e.op)
  }

  predicate ComparesColumn(e: Expr, column: nat)
  {
    Compares(e) && e.left.index == column
  }

  function Successor(k: Key): Key
  {
    k + [0]
  }

  /** The lower bound a conjunct gives on the keys of a column. */
  function StartFrom(e: Expr, column: nat): Option<Key>
  {
    if !ComparesColumn(e, column) || !Encodable(e.right.value) then None else
      var k := Encode(e.right.value);
      match e.op
      case Eq => Some(k)
      case GtEq => Some(k)
      case Gt => Some(Successor(k))
      case _ => None
  }

  /** The upper bound, which is not included. */
  function EndFrom(e: Expr, column: nat): Option<Key>
  {
    if !ComparesColumn(e, column) || !Encodable(e.right.value) then None else
      var k := Encode(e.right.value);
      match e.op
      case Eq => Some(Successor(k))
      case LtEq => Some(Successor(k))
      case Lt => Some(k)
      case _ => None
  }

  ghost predicate Gives(es: seq<Expr>, column: nat, start: Option<Key>)
  {
    exists i :: 0 <= i < |es| && StartFrom(es[i], column) == start
  }

  ghost predicate NoHigher(es: seq<Expr>, column: nat, start: Option<Key>, i: int)
  {
    0 <= i < |es| && StartFrom(es[i], column).Some? ==> start.Some? && Rank(StartFrom(es[i], column).value) <= Rank(start.value)
  }

  /** `start` is the greatest lower bound that any of the conjuncts gives. */
  ghost predicate IsGreatest(start: Option<Key>, es: seq<Expr>, column: nat)
  {
    (start.Some? ==> Gives(es, column, start)) && forall i :: NoHigher(es, column, start, i)
  }

  ghost predicate GivesEnd(es: seq<Expr>, column: nat, end: Option<Key>)
  {
    exists i :: 0 <= i < |es| && EndFrom(es[i], column) == end
  }

  ghost predicate NoLower(es: seq<Expr>, column: nat, end: Option<Key>, i: int)
  {
    0 <= i < |es| && EndFrom(es[i], column).Some? ==> end.Some? && Rank(end.value) <= Rank(EndFrom(es[i], column).value)
  }

  /** `end` is the least upper bound that any of them gives. */
  ghost predicate IsLeast(end: Option<Key>, es: seq<Expr>, column: nat)
  {
    (end.Some? ==> GivesEnd(es, column, end)) && forall i :: NoLower(es, column, end, i)
  }

  predicate Indexed(e: Expr, table: TableId, catalog: Catalog)
  {
    Compares(e) && IndexForColumn(catalog, table, e.left.index).Some?
  }

  /** The first conjunct on an indexed column decides which index is read. */
  ghost predicate FirstIndexed(es: seq<Expr>, table: TableId, catalog: Catalog, i: nat)
  {
    i < |es| && Indexed(es[i], table, catalog) && forall j :: 0 <= j < i ==> !Indexed(es[j], table, catalog)
  }

  ghost predicate Chosen(es: seq<Expr>, table: TableId, catalog: Catalog, info: IndexInfo)
  {
    exists i: nat :: FirstIndexed(es, table, catalog, i) && IndexForColumn(catalog, table, info.column) == Some(info)
                     && es[i].left.index == info.column
  }

  datatype Bounds = Bounds(info: IndexInfo, start: Option<Key>, end: Option<Key>)

  ghost predicate BoundsOf(b: Bounds, p: Expr, table: TableId, catalog: Catalog)
  {
    var es := Conjuncts(p);
    && Chosen(es, table, catalog, b.info)
    && IsGreatest(b.start, es, b.info.column) && IsLeast(b.end, es, b.info.column)
  }

  method FindIndexed(es: seq<Expr>, table: TableId, catalog: Catalog) returns (r: Option<IndexInfo>)
    ensures r.None? <==> forall i :: 0 <= i < |es| ==> !Indexed(es[i], table, catalog)
    ensures r.Some? ==> Chosen(es, table, catalog, r.value)
  {
    for i := 0 to |es|
      invariant forall j :: 0 <= j < i ==> !Indexed(es[j], table, catalog)
    {
      if Compares(es[i]) {
        var info := IndexForColumn(catalog, table, es[i].left.index);
        if info.Some? {
          FirstOnIsListed(catalog[table], es[i].left.index);
          assert FirstIndexed(es, table, catalog, i);
          return info;
        }
      }
    }
    return None;
  }

  /** Keep the greater of the two lower bounds. */
  function Raise(start: Option<Key>, candidate: Option<Key>): Option<Key>
  {
    if candidate.None? then start
    else if start.Some? && !Less(start.value, candidate.value) then start
    else candidate
  }

  function Lower(end: Option<Key>, candidate: Option<Key>): Option<Key>
  {
    if candidate.None? then end
    else if end.Some? && !Less(candidate.value, end.value) then end
    else candidate
  }

  lemma {:induction false} RaiseIsHigher(start: Option<Key>, c: Option<Key>)
    ensures var next := Raise(start, c);
            && (next == start || next == c)
            && (start.Some? ==> next.Some? && Rank(start.value) <= Rank(next.value))
            && (c.Some? ==> next.Some? && Rank(c.value) <= Rank(next.value))
  {
    if start.Some? && c.Some? { LessIsRank(start.value, c.value); }
  }

  lemma {:induction false} StillNoHigher(es: seq<Expr>, e: Expr, column: nat, start: Option<Key>, next: Option<Key>)
    requires next == Raise(start, StartFrom(e, column)) && forall j :: NoHigher(es, column, start, j)
    ensures forall j :: NoHigher(es + [e], column, next, j)
  {
    var more := es + [e];
    RaiseIsHigher(start, StartFrom(e, column));
    forall j ensures NoHigher(more, column, next, j) {
      assert NoHigher(es, column, start, j);
      assert 0 <= j < |es| ==> more[j] == es[j];
    }
  }

  lemma {:induction false} StillGiven(es: seq<Expr>, e: Expr, column: nat, start: Option<Key>, next: Option<Key>)
    requires (start.Some? ==> Gives(es, column, start)) && next.Some? && (next == start || next == StartFrom(e, column))
    ensures Gives(es + [e], column, next)
  {
    var more := es + [e];
    assert more[|es|] == e;
    if next == start {
      var j :| 0 <= j < |es| && StartFrom(es[j], column) == start;
      assert more[j] == es[j];
    }
  }

  lemma {:induction false} Raised(start: Option<Key>, es: seq<Expr>, column: nat, i: nat)
    requires i < |es| && IsGreatest(start, es[..i], column)
    ensures IsGreatest(Raise(start, StartFrom(es[i], column)), es[..i + 1], column)
  {
    var c, less := StartFrom(es[i], column), es[..i];
    var next := Raise(start, c);
    assert es[..i + 1] == less + [es[i]];
    RaiseIsHigher(start, c);
    StillNoHigher(less, es[i], column, start, next);
    if next.Some? { StillGiven(less, es[i], column, start, next); }
  }

  lemma {:induction false} LowerIsLower(end: Option<Key>, c: Option<Key>)
    ensures var next := Lower(end, c);
            && (next == end || next == c)
            && (end.Some? ==> next.Some? && Rank(next.value) <= Rank(end.value))
            && (c.Some? ==> next.Some? && Rank(next.value) <= Rank(c.value))
  {
    if end.Some? && c.Some? { LessIsRank(c.value, end.value); }
  }

  lemma {:induction false} StillNoLower(es: seq<Expr>, e: Expr, column: nat, end: Option<Key>, next: Option<Key>)
    requires next == Lower(end, EndFrom(e, column)) && forall j :: NoLower(es, column, end, j)
    ensures forall j :: NoLower(es + [e], column, next, j)
  {
    var more := es + [e];
    LowerIsLower(end, EndFrom(e, column));
    forall j ensures NoLower(more, column, next, j) {
      assert NoLower(es, column, end, j);
      assert 0 <= j < |es| ==> more[j] == es[j];
    }
  }

  lemma {:induction false} StillGivenEnd(es: seq<Expr>, e: Expr, column: nat, end: Option<Key>, next: Option<Key>)
    requires (end.Some? ==> GivesEnd(es, column, end)) && next.Some? && (next == end || next == EndFrom(e, column))
    ensures GivesEnd(es + [e], column, next)
  {
    var more := es + [e];
    assert more[|es|] == e;
    if next == end {
      var j :| 0 <= j < |es| && EndFrom(es[j], column) == end;
      assert more[j] == es[j];
    }
  }

  lemma {:induction false} Lowered(end: Option<Key>, es: seq<Expr>, column: nat, i: nat)
    requires i < |es| && IsLeast(end, es[..i], column)
    ensures IsLeast(Lower(end, EndFrom(es[i], column)), es[..i + 1], column)
  {
    var c, less := EndFrom(es[i], column), es[..i];
    var next := Lower(end, c);
    assert es[..i + 1] == less + [es[i]];
    LowerIsLower(end, c);
    StillNoLower(less, es[i], column, end, next);
    if next.Some? { StillGivenEnd(less, es[i], column, end, next); }
  }

  /** `index_scan_bounds`. */
  method IndexScanBounds(p: Expr, table: TableId, catalog: Catalog) returns (r: Option<Bounds>)
    ensures r.None? <==> forall i :: 0 <= i < |Conjuncts(p)| ==> !Indexed(Conjuncts(p)[i], table, catalog)
    ensures r.Some? ==> BoundsOf(r.value, p, table, catalog)
  {
    var es := FlattenAndConjuncts(p, []);
    assert es == Conjuncts(p);
    var found := FindIndexed(es, table, catalog);
    if found.None? { return None; }
    var start, end := Narrow(es, found.value.column);
    return Some(Bounds(found.value, start, end));
  }

  /** Its loop over the conjuncts. */
  method Narrow(es: seq<Expr>, column: nat) returns (start: Option<Key>, end: Option<Key>)
    ensures IsGreatest(start, es, column) && IsLeast(end, es, column)
  {
    start, end := None, None;
    for i := 0 to |es|
      invariant IsGreatest(start, es[..i], column) && IsLeast(end, es[..i], column)
    {
      var e := es[i];
      Raised(start, es, column, i);
      Lowered(end, es, column, i);
      if ComparesColumn(e, column) && Encodable(e.right.value) {
        start := Raise(start, StartFrom(e, column));
        end := Lower(end, EndFrom(e, column));
      }
    }
    assert es[..|es|] == es;
  }

  // ---- What the bounds promise about a row ----

  predicate PastStart(start: Option<Key>, key: Key, rid: Rid)
  {
    start.Some? ==> Less(start.value, SortKey(key, rid))
  }

  predicate BeforeEnd(end: Option<Key>, key: Key)
  {
    end.Some? ==> Less(key, end.value)
  }

  /** A true comparison orders the two encodings. */
  lemma {:induction false} ComparedKeys(e: Expr, row: Row)
    requires Compares(e) && IsTrue(e, row) && e.left.index < |row|
    ensures var v, lit := row[e.left.index], e.right.value;
            && Encodable(v) && Encodable(lit)
            && (Rank(Encode(v)) < Rank(Encode(lit)) <==> Compare(v, lit) == Ok(Some(Below)))
            && (Encode(v) == Encode(lit) <==> Compare(v, lit) == Ok(Some(Equal)))
            && Compare(v, lit).Ok? && Compare(v, lit).value.Some? && MatchesComparison(e.op, Compare(v, lit).value.value)
  {
    var v, lit := row[e.left.index], e.right.value;
    assert Evaluate(e, row) == EvaluateBinary(v, e.op, lit);
    ComparableOrder(v, lit);
    LessIsRank(Encode(v), Encode(lit));
  }

  /** A row that satisfies the conjunct is past its lower bound, whatever row id follows the key. */
  lemma {:induction false} StartIsSound(e: Expr, row: Row, column: nat, rid: Rid)
    requires IsTrue(e, row) && column < |row| && StartFrom(e, column).Some?
    ensures Encodable(row[column]) && PastStart(StartFrom(e, column), Encode(row[column]), rid)
  {
    ComparedKeys(e, row);
    var k, lit, start := Encode(row[column]), Encode(e.right.value), StartFrom(e, column).value;
    LessIsRank(start, SortKey(k, rid));
    PrefixIsBelow(k, RidBytes(rid));
    if k != lit { RankOrder(k, lit); }
    if e.op == Gt { SuccessorIsNext(lit, k); }
  }

  lemma {:induction false} RankOrder(a: Key, b: Key)
    requires a != b
    ensures Rank(a) < Rank(b) || Rank(b) < Rank(a)
  {
    if Rank(a) == Rank(b) { RankIsInjective(a, b); }
  }

  /** And before its upper bound. */
  lemma {:induction false} EndIsSound(e: Expr, row: Row, column: nat)
    requires IsTrue(e, row) && column < |row| && EndFrom(e, column).Some?
    ensures Encodable(row[column]) && BeforeEnd(EndFrom(e, column), Encode(row[column]))
  {
    ComparedKeys(e, row);
    var k, lit, end := Encode(row[column]), Encode(e.right.value), EndFrom(e, column).value;
    LessIsRank(k, end);
    PrefixIsBelow(lit, [0]);
    if k != lit { RankOrder(k, lit); }
  }

  /** Every row the predicate keeps lies between the bounds. */
  lemma {:induction false} BoundsAreSound(b: Bounds, p: Expr, table: TableId, catalog: Catalog, row: Row, rid: Rid)
    requires BoundsOf(b, p, table, catalog) && IsTrue(p, row)
    requires b.info.column < |row| && Encodable(row[b.info.column])
    ensures PastStart(b.start, Encode(row[b.info.column]), rid) && BeforeEnd(b.end, Encode(row[b.info.column]))
  {
    var es, column := Conjuncts(p), b.info.column;
    TrueConjuncts(p, row);
    if b.start.Some? {
      var i :| 0 <= i < |es| && StartFrom(es[i], column) == b.start;
      StartIsSound(es[i], row, column, rid);
    }
    if b.end.Some? {
      var i :| 0 <= i < |es| && EndFrom(es[i], column) == b.end;
      EndIsSound(es[i], row, column);
    }
  }

  // ---- The rewrite ----

  /** The plan that `optimize` makes of `p`. */
  ghost predicate Rewritten(p: Plan, r: Plan, catalog: Catalog)
    decreases p
  {
    match p
    case Filter(q, SeqScan(table)) =>
      || (r == p && forall i :: 0 <= i < |Conjuncts(q)| ==> !Indexed(Conjuncts(q)[i], table, catalog))
      || exists b :: BoundsOf(b, q, table, catalog) && r == Filter(q, IndexScan(b.info.id, table, b.start, b.end))
    case Filter(q, input) => r.Filter? && r.condition == q && Rewritten(input, r.input, catalog)
    case Projection(es, input) => r.Projection? && r.expressions == es && Rewritten(input, r.input, catalog)
    case Join(a, b, on) => r.Join? && r.on == on && Rewritten(a, r.left, catalog) && Rewritten(b, r.right, catalog)
    case _ => r == p
  }

  /** `IndexScanRule::apply` at one node whose children are already rewritten. */
  method ApplyIndexScanRule(p: Plan, catalog: Catalog) returns (r: Plan)
    ensures !(p.Filter? && p.input.SeqScan?) ==> r == p
    ensures p.Filter? && p.input.SeqScan? ==> Rewritten(p, r, catalog)
  {
    match p {
      case Filter(q, SeqScan(table)) =>
        var b := IndexScanBounds(q, table, catalog);
        if b.None? { return p; }
        return Filter(q, IndexScan(b.value.info.id, table, b.value.start, b.value.end));
      case _ => return p;
    }
  }

  /** `Optimizer::optimize` with the index-scan rule. */
  method Optimize(p: Plan, catalog: Catalog) returns (r: Plan)
    ensures Rewritten(p, r, catalog)
  {
    var node := p;
    match p {
      case Filter(q, input) =>
        var child := Optimize(input, catalog);
        node := Filter(q, child);
      case Projection(es, input) =>
        var child := Optimize(input, catalog);
        node := Projection(es, child);
      case Join(a, b, on) =>
        var left := Optimize(a, catalog);
        var right := Optimize(b, catalog);
        node := Join(left, right, on);
      case _ =>
    }
    r := ApplyIndexScanRule(node, catalog);
  }
}
