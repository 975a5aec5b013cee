/** Exactly when reading an index range instead of the table loses no row: when the keys of the index are in
    order. Its sort keys always are, but a row id follows each key, so with varchar keys that is not enough. */
module IndexRanges {
  import opened Bytes
  import opened Options
  import opened KeyOrder
  import opened Memcomparable
  import opened Expressions
  import opened Optimizer
  import opened QueryPlans

  // ---- Ranges of a list of entries ----

  /** Everything the range scan passes over is out of range. */
  ghost predicate Complete(es: seq<Entry>, start: Option<Key>, end: Option<Key>)
  {
    forall e :: e in Skipped(es, start, end) ==> OutOfRange(e, start, end)
  }

  /** A scan that ends at a key which a smaller key follows stops before it gets there. */
  lemma {:induction false} StopsEarly(es: seq<Entry>, i: nat, j: nat)
    requires i < j < |es| && Rank(es[j].key) < Rank(es[i].key)
    ensures es[j] in Skipped(es, None, Some(es[i].key)) && !OutOfRange(es[j], None, Some(es[i].key))
    decreases |es|
  {
    var end := Some(es[i].key);
    LessIsRank(es[i].key, es[i].key);
    LessIsRank(es[j].key, es[i].key);
    if Before(es[0], end) { StopsEarly(es[1..], i - 1, j - 1); }
  }

  lemma {:induction false} CompleteIffInStep(es: seq<Entry>)
    ensures (forall start, end :: Complete(es, start, end)) <==> InStep(es)
  {
    if InStep(es) {
      forall start, end ensures Complete(es, start, end) { SkippedIsOutOfRange(es, start, end); }
    } else {
      var i, j :| 0 <= i < j < |es| && Rank(es[j].key) < Rank(es[i].key);
      StopsEarly(es, i, j);
      assert !Complete(es, None, Some(es[i].key));
    }
  }

  // ---- Queries ----

  /** The index scan returns the rows of the table scan, unless that raises an error. */
  ghost predicate SameRows(q: Expr, table: TableId, b: Bounds, db: Database)
    requires TablesFit(db)
  {
    var p, r := Run(Filter(q, SeqScan(table)), db), Run(Filter(q, IndexScan(b.info.id, table, b.start, b.end)), db);
    !p.failed ==> !r.failed && multiset(r.items) == multiset(p.items)
  }

  /** Whatever the query and whatever the snapshot hides, reading this index is right. */
  ghost predicate ServesAll(db: Database, table: TableId, info: IndexInfo)
    requires TablesFit(db)
  {
    forall q, b, hidden :: BoundsOf(b, q, table, db.catalog) && b.info == info ==> SameRows(q, table, b, db.(hidden := hidden))
  }

  ghost predicate AllReadable(t: Table, p: Expr, es: seq<Entry>)
  {
    forall e :: e in es ==> RowAt(t, e.rid).Some? && Evaluate(p, RowAt(t, e.rid).value).Ok?
  }

  lemma {:induction false} NothingFails(t: Table, p: Expr, es: seq<Entry>)
    requires AllReadable(t, p, es)
    ensures !Each(Fetching(t, {}), Stream(RidsOf(es), false)).failed
    ensures !Each(Keeping(p), Each(Fetching(t, {}), Stream(RidsOf(es), false))).failed
  {
    if es != [] {
      NothingFails(t, p, es[1..]);
      var rows := Each(Fetching(t, {}), Stream(RidsOf(es[1..]), false));
      assert RidsOf(es)[0] == es[0].rid && RidsOf(es)[1..] == RidsOf(es[1..]);
      assert es[0] in es;
      var row := RowAt(t, es[0].rid).value;
      assert ([row] + rows.items)[0] == row && ([row] + rows.items)[1..] == rows.items;
    }
  }

  lemma {:induction false} SomethingKept(t: Table, p: Expr, es: seq<Entry>, e: Entry)
    requires AllReadable(t, p, es) && e in es && IsTrue(p, RowAt(t, e.rid).value)
    ensures Each(Keeping(p), Each(Fetching(t, {}), Stream(RidsOf(es), false))).items != []
  {
    NothingFails(t, p, es);
    var rows := Each(Fetching(t, {}), Stream(RidsOf(es[1..]), false));
    assert RidsOf(es)[0] == es[0].rid && RidsOf(es)[1..] == RidsOf(es[1..]);
    assert es[0] in es;
    var row := RowAt(t, es[0].rid).value;
    assert ([row] + rows.items)[0] == row && ([row] + rows.items)[1..] == rows.items;
    if es[0] != e { SomethingKept(t, p, es[1..], e); }
  }

  /** An entry outside the range whose row the query keeps is a row the index scan loses. */
  lemma {:induction false} RangeLoses(t: Table, p: Expr, heap: seq<Rid>, inside: seq<Entry>, outside: seq<Entry>, e: Entry)
    requires multiset(heap) == multiset(RidsOf(inside)) + multiset(RidsOf(outside))
    requires AllReadable(t, p, inside) && AllReadable(t, p, outside) && e in outside && IsTrue(p, RowAt(t, e.rid).value)
    ensures var f, g := Fetching(t, {}), Keeping(p);
            var a, b := Each(g, Each(f, Stream(heap, false))), Each(g, Each(f, Stream(RidsOf(inside), false)));
            !a.failed && |a.items| > |b.items|
  {
    var f, g, xs, ys := Fetching(t, {}), Keeping(p), RidsOf(inside), RidsOf(outside);
    NothingFails(t, p, inside);
    NothingFails(t, p, outside);
    SomethingKept(t, p, outside, e);
    assert multiset(heap) == multiset(xs + ys);
    EachPermuted(f, heap, xs + ys);
    EachOfBoth(f, xs, ys);
    var all, ins, outs := Each(f, Stream(heap, false)), Each(f, Stream(xs, false)), Each(f, Stream(ys, false));
    assert all == Stream(all.items, false) && ins == Stream(ins.items, false) && outs == Stream(outs.items, false);
    EachPermuted(g, all.items, ins.items + outs.items);
    EachOfBoth(g, ins.items, outs.items);
    SameSize(Each(g, all).items, Each(g, ins).items + Each(g, outs).items);
  }

  lemma {:induction false} SameSize<T>(a: seq<T>, b: seq<T>)
    requires multiset(a) == multiset(b)
    ensures |a| == |b|
  {
    assert |multiset(a)| == |a| && |multiset(b)| == |b|;
  }

  lemma {:induction false} DifferentSize<T>(a: seq<T>, b: seq<T>)
    requires |a| != |b|
    ensures multiset(a) != multiset(b)
  {
    assert |multiset(a)| == |a| && |multiset(b)| == |b|;
  }

  /** The query `column < v`. */
  function BelowValue(column: nat, v: Value): Expr
  {
    Binary(ColumnRef(column), Lt, Literal(v))
  }

  lemma {:induction false} BoundsOfBelow(info: IndexInfo, v: Value, table: TableId, catalog: Catalog)
    requires IndexForColumn(catalog, table, info.column) == Some(info) && Encodable(v)
    ensures BoundsOf(Bounds(info, None, Some(Encode(v))), BelowValue(info.column, v), table, catalog)
  {
    var q := BelowValue(info.column, v);
    var es := Conjuncts(q);
    assert es == [q] && EndFrom(es[0], info.column) == Some(Encode(v));
    assert FirstIndexed(es, table, catalog, 0);
  }

  lemma {:induction false} BelowIsReadable(t: Table, column: nat, e: Entry, other: Entry)
    requires EntrySound(t, column, e) && EntrySound(t, column, other)
    ensures var v, w := RowAt(t, e.rid).value[column], RowAt(t, other.rid).value[column];
            var q := BelowValue(column, w);
            && Evaluate(q, RowAt(t, e.rid).value).Ok?
            && (Rank(e.key) < Rank(other.key) && !v.Null? ==> IsTrue(q, RowAt(t, e.rid).value))
  {
    var v, w := RowAt(t, e.rid).value[column], RowAt(t, other.rid).value[column];
    var q := BelowValue(column, w);
    assert Evaluate(q, RowAt(t, e.rid).value) == EvaluateBinary(v, Lt, w);
    EncodingKeepsOrder(v, w, t.types[column]);
    LessIsRank(e.key, other.key);
  }

  lemma {:induction false} AllBelowReadable(t: Table, column: nat, es: seq<Entry>, all: seq<Entry>, other: Entry)
    requires (forall i :: 0 <= i < |all| ==> EntrySound(t, column, all[i])) && EntrySound(t, column, other)
    requires forall e :: e in es ==> e in all
    ensures AllReadable(t, BelowValue(column, RowAt(t, other.rid).value[column]), es)
  {
    forall e | e in es
      ensures RowAt(t, e.rid).Some? && Evaluate(BelowValue(column, RowAt(t, other.rid).value[column]), RowAt(t, e.rid).value).Ok?
    {
      var i :| 0 <= i < |all| && all[i] == e;
      BelowIsReadable(t, column, all[i], other);
    }
  }

  lemma {:induction false} Parts(es: seq<Entry>, start: Option<Key>, end: Option<Key>)
    ensures forall e :: e in Selected(es, start, end) ==> e in es
    ensures forall e :: e in Skipped(es, start, end) ==> e in es
  {
    if es != [] { Parts(es[1..], start, end); }
  }

  /** A key that comes too late in the order of the sort keys is not NULL's. */
  lemma {:induction false} LateIsNotNull(t: Table, column: nat, a: Entry, b: Entry)
    requires EntrySound(t, column, a) && EntrySound(t, column, b)
    requires Rank(EntryKey(a)) < Rank(EntryKey(b)) && Rank(b.key) < Rank(a.key)
    ensures !RowAt(t, b.rid).value[column].Null?
  {
    LessIsRank(b.key, a.key);
    LessIsRank(EntryKey(b), EntryKey(a));
    assert EntryKey(b)[0] == b.key[0] && EntryKey(a)[0] == a.key[0];
  }

  /** If a smaller key follows entry `i`, the query for the values below entry `i`'s loses a row. */
  lemma {:induction false} BelowShrinks(t: Table, column: nat, es: seq<Entry>, heap: seq<Rid>, i: nat, j: nat)
    requires InOrder(es) && (forall k :: 0 <= k < |es| ==> EntrySound(t, column, es[k])) && multiset(RidsOf(es)) == multiset(heap)
    requires i < j < |es| && Rank(es[j].key) < Rank(es[i].key)
    ensures EntrySound(t, column, es[i])
    ensures var f, g := Fetching(t, {}), Keeping(BelowValue(column, RowAt(t, es[i].rid).value[column]));
            var inside := RidsOf(Selected(es, None, Some(es[i].key)));
            var a, b := Each(g, Each(f, Stream(heap, false))), Each(g, Each(f, Stream(inside, false)));
            !a.failed && |a.items| > |b.items|
  {
    assert EntrySound(t, column, es[i]) && EntrySound(t, column, es[j]);
    var end := Some(es[i].key);
    StopsEarly(es, i, j);
    LateIsNotNull(t, column, es[i], es[j]);
    BelowIsReadable(t, column, es[j], es[i]);
    var inside, outside := Selected(es, None, end), Skipped(es, None, end);
    Parts(es, None, end);
    AllBelowReadable(t, column, inside, es, es[i]);
    AllBelowReadable(t, column, outside, es, es[i]);
    SelectedAndSkipped(es, None, end);
    RangeLoses(t, BelowValue(column, RowAt(t, es[i].rid).value[column]), heap, inside, outside, es[j]);
  }

  lemma {:induction false} BelowLoses(db: Database, table: TableId, info: IndexInfo, i: nat, j: nat)
    requires TablesFit(db) && IndexOk(db, table, info) && IndexForColumn(db.catalog, table, info.column) == Some(info)
    requires var es := Flat(db.indexes[info.id]); i < j < |es| && Rank(es[j].key) < Rank(es[i].key)
    ensures !ServesAll(db, table, info)
  {
    var t, es, column := db.tables[table], Flat(db.indexes[info.id]), info.column;
    BelowShrinks(t, column, es, RidsFrom(t, 0, 0), i, j);
    var w := RowAt(t, es[i].rid).value[column];
    var q, b, bare := BelowValue(column, w), Bounds(info, None, Some(es[i].key)), db.(hidden := {});
    BoundsOfBelow(info, w, table, db.catalog);
    FilteredScans(q, table, info.id, None, b.end, bare);
    DifferentSize(Run(Filter(q, SeqScan(table)), bare).items, Run(Filter(q, IndexScan(info.id, table, None, b.end)), bare).items);
    assert !SameRows(q, table, b, bare);
  }

  /** An index that agrees with its table serves every query exactly when its keys are in order. */
  lemma {:induction false} ServesIffInStep(db: Database, table: TableId, info: IndexInfo)
    requires TablesFit(db) && IndexOk(db, table, info) && IndexForColumn(db.catalog, table, info.column) == Some(info)
    ensures ServesAll(db, table, info) <==> InStep(Flat(db.indexes[info.id]))
  {
    var es := Flat(db.indexes[info.id]);
    if InStep(es) {
      forall q, b, hidden | BoundsOf(b, q, table, db.catalog) && b.info == info
        ensures SameRows(q, table, b, db.(hidden := hidden))
      {
        var seen := db.(hidden := hidden);
        if !Run(Filter(q, SeqScan(table)), seen).failed { IndexScanKeepsRows(q, table, b, seen); }
      }
    } else {
      var i, j :| 0 <= i < j < |es| && Rank(es[j].key) < Rank(es[i].key);
      BelowLoses(db, table, info, i, j);
    }
  }

  // ---- Which columns have their keys in order ----

  lemma {:induction false} ApartIsInStep(a: Entry, b: Entry)
    requires Rank(EntryKey(a)) < Rank(EntryKey(b)) && (a.key == b.key || Apart(a.key, b.key))
    ensures Rank(a.key) <= Rank(b.key)
  {
    SortKeyRoundTrip(a.key, a.rid);
    SortKeyRoundTrip(b.key, b.rid);
    SortOrderIsKeyOrder(EntryKey(a), EntryKey(b));
  }

  /** Fixed-width columns always do. */
  lemma {:induction false} FixedWidthInStep(t: Table, column: nat, es: seq<Entry>)
    requires InOrder(es) && column < |t.types| && FixedWidth(t.types[column])
    requires forall i :: 0 <= i < |es| ==> EntrySound(t, column, es[i])
    ensures InStep(es)
  {
    forall i, j | 0 <= i < j < |es| ensures Rank(es[i].key) <= Rank(es[j].key) {
      assert EntrySound(t, column, es[i]) && EntrySound(t, column, es[j]);
      FixedWidthIsPrefixFree(RowAt(t, es[i].rid).value[column], RowAt(t, es[j].rid).value[column], t.types[column]);
      ApartIsInStep(es[i], es[j]);
    }
  }

  /** An index, over rows anywhere in the heap, of a varchar column that holds NULL and these texts. */
  ghost predicate OverTexts(es: seq<Entry>, texts: set<seq<byte>>)
  {
    InOrder(es) && forall i :: 0 <= i < |es| ==> es[i].key == Encode(Null) || KeyIn(es[i].key, texts)
  }

  ghost predicate KeyIn(k: Key, texts: set<seq<byte>>)
  {
    exists x :: x in texts && k == Encode(Varchar(x))
  }

  predicate NoneExtends(texts: set<seq<byte>>)
  {
    forall x, y :: x in texts && y in texts ==> x == y || Apart(x, y)
  }

  lemma {:induction false} TextKeysApart(a: Key, b: Key, texts: set<seq<byte>>)
    requires NoneExtends(texts) && (a == Encode(Null) || KeyIn(a, texts)) && (b == Encode(Null) || KeyIn(b, texts))
    ensures a == b || Apart(a, b)
  {
    if KeyIn(a, texts) && KeyIn(b, texts) {
      var x :| x in texts && a == Encode(Varchar(x));
      var y :| y in texts && b == Encode(Varchar(y));
      VarcharPrefixes(Varchar(x), Varchar(y));
    } else if KeyIn(a, texts) || KeyIn(b, texts) {
      assert a[0] != b[0];
    }
  }

  lemma {:induction false} DecidedAt(a: Key, b: Key, n: nat)
    requires n < |a| && n < |b| && a[n] < b[n] && forall i :: 0 <= i < n ==> a[i] == b[i]
    ensures Less(a, b)
  {
    if n > 0 { DecidedAt(a[1..], b[1..], n - 1); }
  }

  /** The entry of the longer text, on the first heap page, and that of the shorter one, on page 255: no
      UTF-8 text has a byte 0xFF, so the row id puts the shorter one last. */
  function LongFirst(x: seq<byte>, y: seq<byte>): seq<Entry>
  {
    [Entry(Encode(Varchar(y)), Rid(1, 0)), Entry(Encode(Varchar(x)), Rid(255, 0))]
  }

  lemma {:induction false} LongComesFirst(x: seq<byte>, y: seq<byte>)
    requires Utf8(y) && x < y
    ensures InOrder(LongFirst(x, y)) && Rank(Encode(Varchar(x))) < Rank(Encode(Varchar(y)))
  {
    var k, l := [VALUE_TAG] + x, [VALUE_TAG] + y;
    assert l == k + y[|x|..] && l[|k|] == y[|x|];
    PrefixIsBelow(k, y[|x|..]);
    Utf8HasNoFF(y, |x|);
    HighestByte();
    RowIdDecides(k, l, RidBytes(Rid(1, 0)), RidBytes(Rid(255, 0)));
    TwoInOrder(Entry(l, Rid(1, 0)), Entry(k, Rid(255, 0)));
  }

  lemma {:induction false} TwoInOrder(a: Entry, b: Entry)
    requires Rank(EntryKey(a)) < Rank(EntryKey(b))
    ensures InOrder([a, b])
  {
  }

  lemma {:induction false} HighestByte()
    ensures RidBytes(Rid(255, 0))[0] == 255
  {
    assert LeBytes(255, 4)[0] == 255 % 256;
  }

  lemma {:induction false} RowIdDecides(k: Key, l: Key, a: Key, b: Key)
    requires k < l && b != [] && l[|k|] < b[0]
    ensures Rank(l + a) < Rank(k + b)
  {
    assert forall i :: 0 <= i < |k| ==> (l + a)[i] == l[i] == k[i] == (k + b)[i];
    DecidedAt(l + a, k + b, |k|);
    LessIsRank(l + a, k + b);
  }

  /** A varchar column does, wherever its rows are, exactly when no text in it is a proper prefix of another. */
  lemma {:induction false} VarcharInStepIff(texts: set<seq<byte>>)
    requires forall x :: x in texts ==> Utf8(x)
    ensures NoneExtends(texts) <==> forall es :: OverTexts(es, texts) ==> InStep(es)
  {
    if NoneExtends(texts) {
      forall es: seq<Entry> | OverTexts(es, texts) ensures InStep(es) {
        forall i, j | 0 <= i < j < |es| ensures Rank(es[i].key) <= Rank(es[j].key) {
          TextKeysApart(es[i].key, es[j].key, texts);
          ApartIsInStep(es[i], es[j]);
        }
      }
    } else {
      var x: seq<byte>, y: seq<byte> :| x in texts && y in texts && x < y;
      LongComesFirst(x, y);
      var es := LongFirst(x, y);
      assert KeyIn(es[0].key, texts) && KeyIn(es[1].key, texts);
      assert OverTexts(es, texts) && !InStep(es);
    }
  }

  // ---- A row that is lost ----

  /** A table of two rows, one varchar column each, and its index. */
  function TwoRows(x: seq<byte>, y: seq<byte>): Database
  {
    var t := Table([VarcharType(100)], [HeapPage(1, [Some([Varchar(y)])]), HeapPage(255, [Some([Varchar(x)])])]);
    Database(map[0 := t], map[0 := [LongFirst(x, y)]], map[0 := [IndexInfo(0, 0)]], {})
  }

  lemma {:induction false} TwoRids(x: seq<byte>, y: seq<byte>)
    ensures TablesFit(TwoRows(x, y)) && RidsFrom(TwoRows(x, y).tables[0], 0, 0) == [Rid(1, 0), Rid(255, 0)]
  {
    var t := TwoRows(x, y).tables[0];
    assert RidsFrom(t, 2, 0) == [];
    assert RidsFrom(t, 1, 1) == [];
    assert RidsFrom(t, 1, 0) == [Rid(255, 0)];
    assert RidsFrom(t, 0, 1) == [Rid(255, 0)];
  }

  lemma {:induction false} BothAreThere(x: seq<byte>, y: seq<byte>)
    ensures var t := TwoRows(x, y).tables[0];
            RowAt(t, Rid(1, 0)) == Some([Varchar(y)]) && RowAt(t, Rid(255, 0)) == Some([Varchar(x)])
  {
    var t := TwoRows(x, y).tables[0];
    assert FindPage(t.pages, 1) == Some(t.pages[0]);
    assert t.pages[1..][0] == t.pages[1] && FindPage(t.pages[1..], 255) == Some(t.pages[1]);
    assert FindPage(t.pages, 255) == Some(t.pages[1]);
  }

  lemma {:induction false} TwoRowsAgree(x: seq<byte>, y: seq<byte>)
    requires Utf8(x) && Utf8(y) && x < y
    ensures TablesFit(TwoRows(x, y)) && IndexOk(TwoRows(x, y), 0, IndexInfo(0, 0))
    ensures Flat(TwoRows(x, y).indexes[0]) == LongFirst(x, y)
  {
    var db := TwoRows(x, y);
    var t: Table := db.tables[0];
    var es := LongFirst(x, y);
    TwoRids(x, y);
    LongComesFirst(x, y);
    var leaves: Leaves := [es];
    assert |leaves[1..]| == 0 && Flat(leaves) == es;
    BothAreThere(x, y);
    assert es[1..] == [es[1]] && RidsOf([es[1]]) == [es[1].rid];
    assert RidsOf(es) == [Rid(1, 0), Rid(255, 0)];
    forall i | 0 <= i < |es| ensures EntrySound(t, 0, es[i]) { assert i == 0 || i == 1; }
  }

  /** For any two texts of which one extends the other: the table scan finds the shorter one, the index
      scan the optimizer puts in its place stops at the longer one and finds nothing. */
  lemma {:induction false} VarcharRangeMissesARow(x: seq<byte>, y: seq<byte>)
    requires Utf8(x) && Utf8(y) && x < y
    ensures var db := TwoRows(x, y);
            var q := Binary(ColumnRef(0), LtEq, Literal(Varchar(x)));
            var p := Filter(q, SeqScan(0));
            var r := Filter(q, IndexScan(0, 0, None, Some(Successor(Encode(Varchar(x))))));
            && TablesFit(db) && IndexOk(db, 0, IndexInfo(0, 0)) && Rewritten(p, r, db.catalog)
            && Run(p, db) == Stream([[Varchar(x)]], false) && Run(r, db) == Stream([], false)
  {
    var q := Binary(ColumnRef(0), LtEq, Literal(Varchar(x)));
    TwoRowsAgree(x, y);
    TableScanFinds(x, y, q);
    IndexScanMisses(x, y, q);
    IsRewritten(x, y, q);
  }

  lemma {:induction false} IsRewritten(x: seq<byte>, y: seq<byte>, q: Expr)
    requires q == Binary(ColumnRef(0), LtEq, Literal(Varchar(x)))
    ensures Rewritten(Filter(q, SeqScan(0)), Filter(q, IndexScan(0, 0, None, Some(Successor(Encode(Varchar(x)))))), TwoRows(x, y).catalog)
  {
    var b, catalog := Bounds(IndexInfo(0, 0), None, Some(Successor(Encode(Varchar(x))))), TwoRows(x, y).catalog;
    var es := Conjuncts(q);
    assert es == [q] && FirstIndexed(es, 0, catalog, 0) && EndFrom(es[0], 0) == b.end;
    assert BoundsOf(b, q, 0, catalog);
  }

  lemma {:induction false} IndexScanMisses(x: seq<byte>, y: seq<byte>, q: Expr)
    requires Utf8(x) && Utf8(y) && x < y && TablesFit(TwoRows(x, y))
    ensures Run(Filter(q, IndexScan(0, 0, None, Some(Successor(Encode(Varchar(x)))))), TwoRows(x, y)) == Stream([], false)
  {
    var db, k := TwoRows(x, y), Encode(Varchar(x));
    TwoRowsAgree(x, y);
    FilteredScans(q, 0, 0, None, Some(Successor(k)), db);
    LongComesFirst(x, y);
    SuccessorIsNext(k, Encode(Varchar(y)));
    LessIsRank(Encode(Varchar(y)), Successor(k));
    assert Selected(LongFirst(x, y), None, Some(Successor(k))) == [];
  }

  lemma {:induction false} TableScanFinds(x: seq<byte>, y: seq<byte>, q: Expr)
    requires x < y && q == Binary(ColumnRef(0), LtEq, Literal(Varchar(x)))
    ensures TablesFit(TwoRows(x, y)) && Run(Filter(q, SeqScan(0)), TwoRows(x, y)) == Stream([[Varchar(x)]], false)
  {
    TwoRids(x, y);
    FilteredScans(q, 0, 0, None, None, TwoRows(x, y));
    BothFetched(x, y, q);
  }

  lemma {:induction false} BothFetched(x: seq<byte>, y: seq<byte>, q: Expr)
    requires x < y && q == Binary(ColumnRef(0), LtEq, Literal(Varchar(x)))
    ensures var t := TwoRows(x, y).tables[0];
            Each(Keeping(q), Each(Fetching(t, {}), Stream([Rid(1, 0), Rid(255, 0)], false))) == Stream([[Varchar(x)]], false)
  {
    var t := TwoRows(x, y).tables[0];
    var long, short := [Varchar(y)], [Varchar(x)];
    BothAreThere(x, y);
    var f, g := Fetching(t, {}), Keeping(q);
    assert [Rid(1, 0), Rid(255, 0)][1..] == [Rid(255, 0)];
    assert Each(f, Stream([Rid(255, 0)], false)) == Stream([short], false);
    assert Each(f, Stream([Rid(1, 0), Rid(255, 0)], false)) == Stream([long, short], false);
    PrefixIsBelow(x, y[|x|..]);
    assert y == x + y[|x|..];
    LessIsRank(y, x);
    assert Evaluate(q, long) == EvaluateBinary(Varchar(y), LtEq, Varchar(x));
    assert Evaluate(q, short) == EvaluateBinary(Varchar(x), LtEq, Varchar(x));
    assert [long, short][1..] == [short];
    assert Each(g, Stream([short], false)) == Stream([short], false);
    assert Each(g, Stream([long, short], false)) == Stream([short], false);
  }
}
