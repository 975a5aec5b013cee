/** What a plan returns, and why reading an index range instead of the whole table returns the same rows. */
module QueryPlans {
  import opened Bytes
  import opened Options
  import opened KeyOrder
  import opened Memcomparable
  import opened Expressions
  import opened Optimizer

  // ---- Streams: the rows an operator yields before it ends or fails ----

  datatype Stream<T> = Stream(items: seq<T>, failed: bool)

  function Prepend<T>(xs: seq<T>, s: Stream<T>): Stream<T>
  {
    Stream(xs + s.items, s.failed)
  }

  /** Replace every item by what `f` makes of it, until the first error. */
  function Each<A, B>(f: A -> Result<seq<B>>, s: Stream<A>): Stream<B>
    decreases |s.items|
  {
    if s.items == [] then Stream([], s.failed) else
      match f(s.items[0])
      case Err => Stream([], true)
      case Ok(out) => Prepend(out, Each(f, Stream(s.items[1..], s.failed)))
  }

  lemma {:induction false} EachOfBoth<A, B>(f: A -> Result<seq<B>>, xs: seq<A>, ys: seq<A>)
    ensures var a, b, c := Each(f, Stream(xs, false)), Each(f, Stream(ys, false)), Each(f, Stream(xs + ys, false));
            (c.failed <==> a.failed || b.failed) && (!c.failed ==> c.items == a.items + b.items)
    decreases |xs|
  {
    if xs == [] {
      assert xs + ys == ys;
    } else {
      assert (xs + ys)[0] == xs[0] && (xs + ys)[1..] == xs[1..] + ys;
      EachOfBoth(f, xs[1..], ys);
    }
  }

  /** The order of the items decides neither whether `f` fails on one of them nor what comes out of it. */
  lemma {:induction false} EachPermuted<A, B>(f: A -> Result<seq<B>>, xs: seq<A>, ys: seq<A>)
    requires multiset(xs) == multiset(ys)
    ensures var a, b := Each(f, Stream(xs, false)), Each(f, Stream(ys, false));
            (a.failed <==> b.failed) && (!a.failed ==> multiset(a.items) == multiset(b.items))
    decreases |xs|
  {
    if xs == [] {
      assert |ys| == |multiset(ys)| == |multiset(xs)| == 0;
    } else {
      assert xs[0] in multiset(ys);
      var i :| 0 <= i < |ys| && ys[i] == xs[0];
      var l, r := ys[..i], ys[i + 1..];
      Taken(xs, ys, i);
      EachPermuted(f, xs[1..], l + r);
      EachOfBoth(f, l, r);
      EachOfBoth(f, l, [xs[0]] + r);
      EachOfBoth(f, [xs[0]], r);
      EachOfBoth(f, [xs[0]], xs[1..]);
      assert [xs[0]] + xs[1..] == xs;
    }
  }

  lemma {:induction false} Taken<A>(xs: seq<A>, ys: seq<A>, i: nat)
    requires xs != [] && i < |ys| && ys[i] == xs[0] && multiset(xs) == multiset(ys)
    ensures ys == ys[..i] + ([xs[0]] + ys[i + 1..]) && multiset(xs[1..]) == multiset(ys[..i] + ys[i + 1..])
  {
    var l, r := ys[..i], ys[i + 1..];
    assert ys == l + ([xs[0]] + r);
    assert xs == [xs[0]] + xs[1..];
    assert multiset(l + r) == multiset(ys) - multiset{xs[0]};
    assert multiset(xs[1..]) == multiset(xs) - multiset{xs[0]};
  }

  // ---- Tables and indexes ----

  /** A heap page with its slots; a deleted slot is empty. */
  datatype HeapPage = HeapPage(id: U32, slots: seq<Option<Row>>)

  datatype Table = Table(types: seq<DataType>, pages: seq<HeapPage>)

  datatype Entry = Entry(key: Key, rid: Rid)

  /** The leaf chain of an index. */
  type Leaves = seq<seq<Entry>>

  /** `hidden` are the rows the snapshot must not see. */
  datatype Database = Database(tables: map<TableId, Table>, indexes: map<IndexId, Leaves>, catalog: Catalog, hidden: set<Rid>)

  function FindPage(pages: seq<HeapPage>, id: U32): Option<HeapPage>
  {
    if pages == [] then None else if pages[0].id == id then Some(pages[0]) else FindPage(pages[1..], id)
  }

  /** `get_tuple`. */
  function RowAt(t: Table, rid: Rid): Option<Row>
  {
    var page := FindPage(t.pages, rid.page);
    if page.Some? && rid.slot < |page.value.slots| then page.value.slots[rid.slot] else None
  }

  predicate SlotsFit(t: Table)
  {
    forall i :: 0 <= i < |t.pages| ==> |t.pages[i].slots| < 0x1_0000
  }

  /** The live rows from a slot of a page on, in heap order. */
  function RidsFrom(t: Table, page: nat, slot: nat): seq<Rid>
    requires SlotsFit(t)
    decreases |t.pages| - page, if page < |t.pages| then |t.pages[page].slots| - slot else 0
  {
    if page >= |t.pages| then []
    else if slot >= |t.pages[page].slots| then RidsFrom(t, page + 1, 0)
    else if t.pages[page].slots[slot].None? then RidsFrom(t, page, slot + 1)
    else [Rid(t.pages[page].id, slot)] + RidsFrom(t, page, slot + 1)
  }

  function Flat(leaves: Leaves): seq<Entry>
  {
    if leaves == [] then [] else leaves[0] + Flat(leaves[1..])
  }

  function RidsOf(es: seq<Entry>): seq<Rid>
  {
    if es == [] then [] else [es[0].rid] + RidsOf(es[1..])
  }

  function EntryKey(e: Entry): Key
  {
    SortKey(e.key, e.rid)
  }

  predicate Past(after: Option<Key>, e: Entry)
  {
    after.Some? ==> Less(after.value, EntryKey(e))
  }

  predicate Before(e: Entry, end: Option<Key>)
  {
    end.Some? ==> Less(e.key, end.value)
  }

  /** The entries a scan yields: from the first one past `start` up to the first one at or after `end`. */
  function Selected(es: seq<Entry>, start: Option<Key>, end: Option<Key>): seq<Entry>
  {
    if es == [] then []
    else if !Past(start, es[0]) then Selected(es[1..], start, end)
    else if !Before(es[0], end) then []
    else [es[0]] + Selected(es[1..], start, end)
  }

  // ---- Plans ----

  /** A row the snapshot may not see is passed over; a missing row is an error. */
  function Fetch(t: Table, hidden: set<Rid>, rid: Rid): Result<seq<Row>>
  {
    if rid in hidden then Ok([]) else
      match RowAt(t, rid)
      case None => Err
      case Some(row) => Ok([row])
  }

  function Keep(p: Expr, row: Row): Result<seq<Row>>
  {
    match Evaluate(p, row)
    case Err => Err
    case Ok(v) => Ok(if v == Boolean(true) then [row] else [])
  }

  function Values(es: seq<Expr>, row: Row): Result<Row>
  {
    if es == [] then Ok([]) else
      match (Evaluate(es[0], row), Values(es[1..], row))
      case (Ok(v), Ok(rest)) => Ok([v] + rest)
      case _ => Err
  }

  function Project(es: seq<Expr>, row: Row): Result<seq<Row>>
  {
    match Values(es, row)
    case Err => Err
    case Ok(values) => Ok([values])
  }

  function Fetching(t: Table, hidden: set<Rid>): Rid -> Result<seq<Row>>
  {
    (rid: Rid) => Fetch(t, hidden, rid)
  }

  function Keeping(p: Expr): Row -> Result<seq<Row>>
  {
    (row: Row) => Keep(p, row)
  }

  function Projecting(es: seq<Expr>): Row -> Result<seq<Row>>
  {
    (row: Row) => Project(es, row)
  }

  predicate TablesFit(db: Database)
  {
    forall t :: t in db.tables ==> SlotsFit(db.tables[t])
  }

  /** The rows a plan yields. Joins are unfinished and statements are no queries: both count as failing. */
  function Run(p: Plan, db: Database): Stream<Row>
    requires TablesFit(db)
    decreases p
  {
    match p
    case OneRow => Stream([[]], false)
    case SeqScan(t) =>
      if t !in db.tables then Stream([], true)
      else Each(Fetching(db.tables[t], db.hidden), Stream(RidsFrom(db.tables[t], 0, 0), false))
    case IndexScan(i, t, start, end) =>
      if t !in db.tables || i !in db.indexes then Stream([], true)
      else Each(Fetching(db.tables[t], db.hidden), Stream(RidsOf(Selected(Flat(db.indexes[i]), start, end)), false))
    case Filter(q, input) => Each(Keeping(q), Run(input, db))
    case Projection(es, input) => Each(Projecting(es), Run(input, db))
    case Join(_, _, _) => Stream([], true)
    case Statement(_) => Stream([], true)
  }

  // ---- An index that agrees with its heap ----

  predicate EntrySound(t: Table, column: nat, e: Entry)
  {
    var row := RowAt(t, e.rid);
    && row.Some? && column < |row.value| && column < |t.types|
    && OfType(row.value[column], t.types[column]) && Encodable(row.value[column]) && e.key == Encode(row.value[column])
  }

  ghost predicate InOrder(es: seq<Entry>)
  {
    forall i, j :: 0 <= i < j < |es| ==> Rank(EntryKey(es[i])) < Rank(EntryKey(es[j]))
  }

  /** The keys are in order too, which the order of the sort keys does not imply: a row id follows the key. */
  ghost predicate InStep(es: seq<Entry>)
  {
    forall i, j :: 0 <= i < j < |es| ==> Rank(es[i].key) <= Rank(es[j].key)
  }

  /** One entry for every live row, with the encoding of its column, in sort-key order. */
  ghost predicate Agrees(t: Table, column: nat, leaves: Leaves)
  {
    && SlotsFit(t) && InOrder(Flat(leaves))
    && (forall i :: 0 <= i < |Flat(leaves)| ==> EntrySound(t, column, Flat(leaves)[i]))
    && multiset(RidsOf(Flat(leaves))) == multiset(RidsFrom(t, 0, 0))
  }

  ghost predicate IndexOk(db: Database, t: TableId, info: IndexInfo)
  {
    t in db.tables && info.id in db.indexes && Agrees(db.tables[t], info.column, db.indexes[info.id])
  }

  /** Every index of the catalog agrees with its table, and its keys are in order. */
  ghost predicate DatabaseOk(db: Database)
  {
    TablesFit(db) && forall t, i :: t in db.catalog && 0 <= i < |db.catalog[t]| ==> IndexServes(db, t, db.catalog[t][i])
  }

  ghost predicate IndexServes(db: Database, t: TableId, info: IndexInfo)
  {
    IndexOk(db, t, info) && InStep(Flat(db.indexes[info.id]))
  }

  // ---- The entries a scan leaves out ----

  function Skipped(es: seq<Entry>, start: Option<Key>, end: Option<Key>): seq<Entry>
  {
    if es == [] then []
    else if !Past(start, es[0]) then [es[0]] + Skipped(es[1..], start, end)
    else if !Before(es[0], end) then es
    else Skipped(es[1..], start, end)
  }

  lemma {:induction false} SelectedAndSkipped(es: seq<Entry>, start: Option<Key>, end: Option<Key>)
    ensures multiset(RidsOf(Selected(es, start, end))) + multiset(RidsOf(Skipped(es, start, end))) == multiset(RidsOf(es))
  {
    if es != [] {
      var e, rest := es[0], es[1..];
      var a, b := Selected(rest, start, end), Skipped(rest, start, end);
      SelectedAndSkipped(rest, start, end);
      assert es == [e] + rest;
      OneMoreRid(e, rest);
      if !Past(start, e) {
        OneMoreRid(e, b);
      } else if Before(e, end) {
        OneMoreRid(e, a);
      }
    }
  }

  lemma {:induction false} OneMoreRid(e: Entry, es: seq<Entry>)
    ensures RidsOf([e] + es) == [e.rid] + RidsOf(es)
    ensures multiset(RidsOf([e] + es)) == multiset{e.rid} + multiset(RidsOf(es))
  {
    assert ([e] + es)[1..] == es;
  }

  /** Once past the end, an index whose keys are in order has nothing more in range. */
  lemma {:induction false} StaysBeyond(a: Entry, b: Entry, end: Option<Key>)
    requires Rank(a.key) <= Rank(b.key) && !Before(a, end)
    ensures !Before(b, end)
  {
    LessIsRank(a.key, end.value);
    LessIsRank(b.key, end.value);
  }

  predicate OutOfRange(e: Entry, start: Option<Key>, end: Option<Key>)
  {
    !Past(start, e) || !Before(e, end)
  }

  lemma {:induction false} SkippedIsOutOfRange(es: seq<Entry>, start: Option<Key>, end: Option<Key>)
    requires InStep(es)
    ensures forall e :: e in Skipped(es, start, end) ==> e in es && OutOfRange(e, start, end)
  {
    if es != [] {
      if Past(start, es[0]) && !Before(es[0], end) {
        forall i | 0 <= i < |es| ensures OutOfRange(es[i], start, end) {
          if i > 0 { StaysBeyond(es[0], es[i], end); }
        }
      } else {
        SkippedIsOutOfRange(es[1..], start, end);
      }
    }
  }

  // ---- The rewrite keeps the rows ----

  /** No entry of this list has a row that the predicate keeps. */
  ghost predicate NoneKept(t: Table, p: Expr, es: seq<Entry>)
  {
    forall e :: e in es ==> RowAt(t, e.rid).Some? && !IsTrue(p, RowAt(t, e.rid).value)
  }

  lemma {:induction false} SkippedRowsAreNotKept(db: Database, b: Bounds, p: Expr, table: TableId)
    requires BoundsOf(b, p, table, db.catalog) && IndexServes(db, table, b.info)
    ensures NoneKept(db.tables[table], p, Skipped(Flat(db.indexes[b.info.id]), b.start, b.end))
  {
    var t, column, es := db.tables[table], b.info.column, Flat(db.indexes[b.info.id]);
    SkippedIsOutOfRange(es, b.start, b.end);
    forall e | e in Skipped(es, b.start, b.end) ensures RowAt(t, e.rid).Some? && !IsTrue(p, RowAt(t, e.rid).value) {
      var i :| 0 <= i < |es| && es[i] == e;
      assert EntrySound(t, column, es[i]);
      if IsTrue(p, RowAt(t, e.rid).value) {
        BoundsAreSound(b, p, table, db.catalog, RowAt(t, e.rid).value, e.rid);
      }
    }
  }

  /** Rows that are not kept leave nothing behind. */
  lemma {:induction false} NothingKept(t: Table, hidden: set<Rid>, p: Expr, es: seq<Entry>)
    requires NoneKept(t, p, es)
    ensures !Each(Fetching(t, hidden), Stream(RidsOf(es), false)).failed
    ensures Each(Keeping(p), Each(Fetching(t, hidden), Stream(RidsOf(es), false))).items == []
  {
    if es != [] {
      NothingKept(t, hidden, p, es[1..]);
      var rows := Each(Fetching(t, hidden), Stream(RidsOf(es[1..]), false));
      assert RidsOf(es)[0] == es[0].rid && RidsOf(es)[1..] == RidsOf(es[1..]);
      assert es[0] in es;
      if es[0].rid in hidden {
        assert Prepend([], rows) == rows;
      } else {
        var row := RowAt(t, es[0].rid).value;
        assert ([row] + rows.items)[0] == row && ([row] + rows.items)[1..] == rows.items;
      }
    }
  }

  lemma {:induction false} RangeSuffices(t: Table, hidden: set<Rid>, p: Expr, heap: seq<Rid>, inside: seq<Rid>, outside: seq<Entry>)
    requires multiset(heap) == multiset(inside) + multiset(RidsOf(outside)) && NoneKept(t, p, outside)
    ensures var f, g := Fetching(t, hidden), Keeping(p);
            var a, b := Each(g, Each(f, Stream(heap, false))), Each(g, Each(f, Stream(inside, false)));
            !a.failed ==> !b.failed && multiset(a.items) == multiset(b.items)
  {
    var f, g, others := Fetching(t, hidden), Keeping(p), RidsOf(outside);
    var all := Each(f, Stream(heap, false));
    var ins, outs := Each(f, Stream(inside, false)), Each(f, Stream(others, false));
    NothingKept(t, hidden, p, outside);
    assert multiset(heap) == multiset(inside + others);
    EachPermuted(f, heap, inside + others);
    EachOfBoth(f, inside, others);
    if !Each(g, all).failed {
      FailureStays(g, all);
      assert all == Stream(all.items, false) && ins == Stream(ins.items, false) && outs == Stream(outs.items, false);
      EachPermuted(g, all.items, ins.items + outs.items);
      EachOfBoth(g, ins.items, outs.items);
      assert Each(g, ins).items + [] == Each(g, ins).items;
    }
  }

  lemma {:induction false} FailureStays<A, B>(f: A -> Result<seq<B>>, s: Stream<A>)
    ensures s.failed ==> Each(f, s).failed
    decreases |s.items|
  {
    if s.items != [] { FailureStays(f, Stream(s.items[1..], s.failed)); }
  }

  /** The optimized plan returns the rows of the original, in some order, whenever the original raises no error. */
  lemma {:induction false} RewriteKeepsRows(p: Plan, r: Plan, db: Database)
    requires DatabaseOk(db) && Rewritten(p, r, db.catalog) && !Run(p, db).failed
    ensures !Run(r, db).failed && multiset(Run(r, db).items) == multiset(Run(p, db).items)
    decreases p
  {
    match p {
      case Filter(q, SeqScan(table)) =>
        if r != p {
          var b :| BoundsOf(b, q, table, db.catalog) && r == Filter(q, IndexScan(b.info.id, table, b.start, b.end));
          ChosenIndexIsOk(q, table, b, db);
          IndexScanKeepsRows(q, table, b, db);
        }
      case Filter(q, input) =>
        FailureStays(Keeping(q), Run(input, db));
        RewriteKeepsRows(input, r.input, db);
        AsStream(Run(input, db), Run(r.input, db));
        EachPermuted(Keeping(q), Run(input, db).items, Run(r.input, db).items);
      case Projection(es, input) =>
        FailureStays(Projecting(es), Run(input, db));
        RewriteKeepsRows(input, r.input, db);
        AsStream(Run(input, db), Run(r.input, db));
        EachPermuted(Projecting(es), Run(input, db).items, Run(r.input, db).items);
      case _ =>
    }
  }

  lemma AsStream<T>(a: Stream<T>, b: Stream<T>)
    requires !a.failed && !b.failed
    ensures a == Stream(a.items, false) && b == Stream(b.items, false)
  {
  }

  lemma {:induction false} ChosenIndexIsOk(q: Expr, table: TableId, b: Bounds, db: Database)
    requires DatabaseOk(db) && BoundsOf(b, q, table, db.catalog)
    ensures IndexServes(db, table, b.info)
  {
    FirstOnIsListed(db.catalog[table], b.info.column);
    var k :| 0 <= k < |db.catalog[table]| && db.catalog[table][k] == b.info;
    assert IndexServes(db, table, db.catalog[table][k]);
  }

  lemma {:induction false} IndexScanKeepsRows(q: Expr, table: TableId, b: Bounds, db: Database)
    requires TablesFit(db) && IndexServes(db, table, b.info) && BoundsOf(b, q, table, db.catalog)
    requires !Run(Filter(q, SeqScan(table)), db).failed
    ensures var r := Run(Filter(q, IndexScan(b.info.id, table, b.start, b.end)), db);
            !r.failed && multiset(r.items) == multiset(Run(Filter(q, SeqScan(table)), db).items)
  {
    SkippedRowsAreNotKept(db, b, q, table);
    var t, es := db.tables[table], Flat(db.indexes[b.info.id]);
    SelectedAndSkipped(es, b.start, b.end);
    var heap, inside := RidsFrom(t, 0, 0), RidsOf(Selected(es, b.start, b.end));
    RangeSuffices(t, db.hidden, q, heap, inside, Skipped(es, b.start, b.end));
    FilteredScans(q, table, b.info.id, b.start, b.end, db);
  }

  lemma {:induction false} FilteredScans(q: Expr, table: TableId, i: IndexId, start: Option<Key>, end: Option<Key>, db: Database)
    requires TablesFit(db) && table in db.tables && i in db.indexes
    ensures Run(Filter(q, SeqScan(table)), db)
         == Each(Keeping(q), Each(Fetching(db.tables[table], db.hidden), Stream(RidsFrom(db.tables[table], 0, 0), false)))
    ensures Run(Filter(q, IndexScan(i, table, start, end)), db)
         == Each(Keeping(q), Each(Fetching(db.tables[table], db.hidden), Stream(RidsOf(Selected(Flat(db.indexes[i]), start, end)), false)))
  {
    assert Run(Filter(q, SeqScan(table)), db) == Each(Keeping(q), Run(SeqScan(table), db));
    assert Run(Filter(q, IndexScan(i, table, start, end)), db) == Each(Keeping(q), Run(IndexScan(i, table, start, end), db));
  }
}
