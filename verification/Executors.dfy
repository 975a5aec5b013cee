/** The operators that pull rows one at a time, and the query that runs an optimized plan. */
module Executors {
  import opened Options
  import opened KeyOrder
  import opened Memcomparable
  import opened Expressions
  import opened Optimizer
  import opened QueryPlans

  // ---- One page, one leaf ----

  /** `scan_page`: the first live slot from `from` on. */
  method ScanPage(page: HeapPage, from: nat) returns (slot: Option<nat>)
    ensures slot.Some? ==> from <= slot.value < |page.slots| && page.slots[slot.value].Some? && EmptyBetween(page, from, slot.value)
    ensures slot.None? ==> EmptyBetween(page, from, |page.slots|)
  {
    var s: nat := from;
    while s < |page.slots|
      invariant from <= s && EmptyBetween(page, from, s)
    {
      if page.slots[s].Some? { return Some(s); }
      s := s + 1;
    }
    return None;
  }

  predicate EmptyBetween(page: HeapPage, from: nat, upto: nat)
  {
    forall i :: from <= i < upto && i < |page.slots| ==> page.slots[i].None?
  }

  lemma {:induction false} PassEmpty(t: Table, page: nat, from: nat, upto: nat)
    requires SlotsFit(t) && page < |t.pages| && from <= upto <= |t.pages[page].slots| && EmptyBetween(t.pages[page], from, upto)
    ensures RidsFrom(t, page, from) == RidsFrom(t, page, upto)
    decreases upto - from
  {
    if from < upto { PassEmpty(t, page, from + 1, upto); }
  }

  /** What `scan_leaf` returns: the first entry of the leaf past `after`. */
  method ScanLeaf(leaf: seq<Entry>, after: Option<Key>) returns (found: Option<nat>)
    ensures found.Some? ==> found.value < |leaf| && Past(after, leaf[found.value]) && NonePast(leaf[..found.value], after)
    ensures found.None? ==> NonePast(leaf, after)
  {
    for i := 0 to |leaf|
      invariant NonePast(leaf[..i], after)
    {
      if Past(after, leaf[i]) { return Some(i); }
      assert leaf[..i + 1] == leaf[..i] + [leaf[i]];
    }
    assert leaf[..|leaf|] == leaf;
    return None;
  }

  predicate NonePast(es: seq<Entry>, after: Option<Key>)
  {
    forall i :: 0 <= i < |es| ==> !Past(after, es[i])
  }

  lemma {:induction false} PassEarly(es: seq<Entry>, rest: seq<Entry>, after: Option<Key>, end: Option<Key>)
    requires NonePast(es, after)
    ensures Selected(es + rest, after, end) == Selected(rest, after, end)
  {
    if es == [] {
      assert es + rest == rest;
    } else {
      assert (es + rest)[0] == es[0] && (es + rest)[1..] == es[1..] + rest;
      PassEarly(es[1..], rest, after, end);
    }
  }

  /** Moving the lower bound up to an entry drops nothing that follows it. */
  lemma {:induction false} MoveAfter(e: Entry, rest: seq<Entry>, after: Option<Key>, end: Option<Key>)
    requires InOrder([e] + rest) && Past(after, e)
    ensures Selected(rest, Some(EntryKey(e)), end) == Selected(rest, after, end)
  {
    if rest != [] {
      var es := [e] + rest;
      assert es[0] == e && es[1] == rest[0];
      LessIsRank(EntryKey(e), EntryKey(rest[0]));
      if after.Some? {
        LessIsRank(after.value, EntryKey(e));
        LessIsRank(after.value, EntryKey(rest[0]));
      }
      Dropped(e, rest);
      MoveAfter(e, rest[1..], after, end);
    }
  }

  lemma {:induction false} Dropped(e: Entry, rest: seq<Entry>)
    requires rest != [] && InOrder([e] + rest)
    ensures InOrder([e] + rest[1..])
  {
    var es, fewer := [e] + rest, [e] + rest[1..];
    forall i, j | 0 <= i < j < |fewer| ensures Rank(EntryKey(fewer[i])) < Rank(EntryKey(fewer[j])) {
      var k := if i == 0 then 0 else i + 1;
      assert fewer[i] == es[k] && fewer[j] == es[j + 1];
    }
  }

  // ---- What is left to yield ----

  predicate DistinctPages(t: Table)
  {
    forall i, j :: 0 <= i < j < |t.pages| ==> t.pages[i].id != t.pages[j].id
  }

  ghost predicate Ready(db: Database)
  {
    && TablesFit(db) && (forall t :: t in db.tables ==> DistinctPages(db.tables[t]))
    && forall i :: i in db.indexes ==> InOrder(Flat(db.indexes[i]))
  }

  lemma {:induction false} FindHere(pages: seq<HeapPage>, i: nat)
    requires i < |pages| && forall j, k :: 0 <= j < k < |pages| ==> pages[j].id != pages[k].id
    ensures FindPage(pages, pages[i].id) == Some(pages[i])
  {
    if i > 0 { FindHere(pages[1..], i - 1); }
  }

  ghost function SeqRest(t: Table, hidden: set<Rid>, page: Option<nat>, slot: nat): Stream<Row>
    requires SlotsFit(t)
  {
    Each(Fetching(t, hidden), Stream(if page.None? then [] else RidsFrom(t, page.value, slot), false))
  }

  lemma {:induction false} SeqFound(t: Table, hidden: set<Rid>, page: nat, slot: nat, found: nat)
    requires SlotsFit(t) && DistinctPages(t) && page < |t.pages| && slot <= found < |t.pages[page].slots|
    requires t.pages[page].slots[found].Some? && EmptyBetween(t.pages[page], slot, found)
    ensures Rid(t.pages[page].id, found) in hidden ==> SeqRest(t, hidden, Some(page), slot) == SeqRest(t, hidden, Some(page), found + 1)
    ensures Rid(t.pages[page].id, found) !in hidden ==>
              SeqRest(t, hidden, Some(page), slot) == Prepend([t.pages[page].slots[found].value], SeqRest(t, hidden, Some(page), found + 1))
  {
    PassEmpty(t, page, slot, found);
    FindHere(t.pages, page);
    var rid, rids := Rid(t.pages[page].id, found), RidsFrom(t, page, found + 1);
    assert ([rid] + rids)[0] == rid && ([rid] + rids)[1..] == rids;
    assert RowAt(t, rid) == t.pages[page].slots[found];
    assert Prepend([], Each(Fetching(t, hidden), Stream(rids, false))) == Each(Fetching(t, hidden), Stream(rids, false));
  }

  lemma {:induction false} SeqPageDone(t: Table, hidden: set<Rid>, page: nat, slot: nat, next: Option<nat>)
    requires SlotsFit(t) && page < |t.pages| && EmptyBetween(t.pages[page], slot, |t.pages[page].slots|)
    requires next == if page + 1 < |t.pages| then Some(page + 1) else None
    ensures SeqRest(t, hidden, Some(page), slot) == SeqRest(t, hidden, next, 0)
  {
    var n := |t.pages[page].slots|;
    if slot <= n { PassEmpty(t, page, slot, n); }
    assert RidsFrom(t, page, n) == RidsFrom(t, page + 1, 0);
  }

  ghost function IndexRest(t: Table, hidden: set<Rid>, leaves: Leaves, leaf: Option<nat>, after: Option<Key>, end: Option<Key>): Stream<Row>
    requires leaf.Some? ==> leaf.value <= |leaves|
  {
    Each(Fetching(t, hidden), Stream(RidsOf(if leaf.None? then [] else Selected(Flat(leaves[leaf.value..]), after, end)), false))
  }

  /** The entry a leaf scan finds is the next one of the range, or the range ends here. */
  lemma {:induction false} IndexFound(leaves: Leaves, i: nat, after: Option<Key>, end: Option<Key>, j: nat)
    requires i < |leaves| && InOrder(Flat(leaves[i..])) && j < |leaves[i]|
    requires Past(after, leaves[i][j]) && NonePast(leaves[i][..j], after)
    ensures Selected(Flat(leaves[i..]), after, end)
         == if Before(leaves[i][j], end) then [leaves[i][j]] + Selected(Flat(leaves[i..]), Some(EntryKey(leaves[i][j])), end) else []
  {
    var e, early, late := leaves[i][j], leaves[i][..j], leaves[i][j + 1..] + Flat(leaves[i + 1..]);
    FlatOfTail(leaves, i);
    assert Flat(leaves[i..]) == early + ([e] + late);
    FirstPast(early, e, late, after, end);
  }

  lemma {:induction false} FirstPast(early: seq<Entry>, e: Entry, late: seq<Entry>, after: Option<Key>, end: Option<Key>)
    requires InOrder(early + ([e] + late)) && Past(after, e) && NonePast(early, after)
    ensures Selected(early + ([e] + late), after, end)
         == if Before(e, end) then [e] + Selected(early + ([e] + late), Some(EntryKey(e)), end) else []
  {
    PassEarly(early, [e] + late, after, end);
    assert ([e] + late)[0] == e && ([e] + late)[1..] == late;
    InOrderTail(early, [e] + late);
    MoveAfter(e, late, after, end);
    NonePastItself(early, e, late);
    assert early + ([e] + late) == (early + [e]) + late;
    PassEarly(early + [e], late, Some(EntryKey(e)), end);
  }

  lemma {:induction false} NonePastItself(early: seq<Entry>, e: Entry, late: seq<Entry>)
    requires InOrder(early + ([e] + late))
    ensures NonePast(early + [e], Some(EntryKey(e)))
  {
    var all, upto := early + ([e] + late), early + [e];
    forall k | 0 <= k < |upto| ensures !Past(Some(EntryKey(e)), upto[k]) {
      LessIsRank(EntryKey(e), EntryKey(upto[k]));
      assert upto[k] == all[k] && all[|early|] == e;
    }
  }

  lemma {:induction false} InOrderTail(a: seq<Entry>, b: seq<Entry>)
    requires InOrder(a + b)
    ensures InOrder(b)
  {
    forall i, j | 0 <= i < j < |b| ensures Rank(EntryKey(b[i])) < Rank(EntryKey(b[j])) {
      assert (a + b)[|a| + i] == b[i] && (a + b)[|a| + j] == b[j];
    }
  }

  lemma {:induction false} InOrderFrom(leaves: Leaves, i: nat)
    requires InOrder(Flat(leaves)) && i <= |leaves|
    ensures InOrder(Flat(leaves[i..]))
  {
    if i == 0 {
      assert leaves[0..] == leaves;
    } else {
      InOrderTail(leaves[0], Flat(leaves[1..]));
      InOrderFrom(leaves[1..], i - 1);
      assert leaves[1..][i - 1..] == leaves[i..];
    }
  }

  lemma {:induction false} LeafDone(leaves: Leaves, i: nat, after: Option<Key>, end: Option<Key>)
    requires i < |leaves| && NonePast(leaves[i], after)
    ensures Selected(Flat(leaves[i..]), after, end) == Selected(Flat(leaves[i + 1..]), after, end)
  {
    FlatOfTail(leaves, i);
    PassEarly(leaves[i], Flat(leaves[i + 1..]), after, end);
  }

  /** One pull takes the first item, reports the end, or reports the failure. */
  ghost predicate Pulls<T>(before: Stream<T>, r: Result<Option<T>>, after: Stream<T>)
  {
    match r
    case Ok(None) => before == Stream([], false) && after == before
    case Ok(Some(x)) => before.items != [] && before.items[0] == x && after == Stream(before.items[1..], before.failed)
    case Err => before == Stream([], true)
  }

  lemma {:induction false} PullOne<T>(x: T, after: Stream<T>)
    ensures Pulls(Prepend([x], after), Ok(Some(x)), after)
  {
    assert ([x] + after.items)[1..] == after.items;
  }

  lemma {:induction false} FlatOfTail(leaves: Leaves, i: nat)
    requires i < |leaves|
    ensures Flat(leaves[i..]) == leaves[i] + Flat(leaves[i + 1..])
  {
    assert leaves[i..][0] == leaves[i] && leaves[i..][1..] == leaves[i + 1..];
  }

  /** The loop of `SeqScanExecutor::next` over its page and slot. */
  method PullSeq(t: Table, hidden: set<Rid>, page0: Option<nat>, slot0: nat) returns (r: Result<Option<Row>>, page: Option<nat>, slot: nat)
    requires SlotsFit(t) && DistinctPages(t) && (page0.Some? ==> page0.value < |t.pages|)
    ensures page.Some? ==> page.value < |t.pages|
    ensures Pulls(SeqRest(t, hidden, page0, slot0), r, SeqRest(t, hidden, page, slot))
  {
    page, slot := page0, slot0;
    ghost var all := SeqRest(t, hidden, page, slot);
    while page.Some?
      invariant page.Some? ==> page.value < |t.pages|
      invariant SeqRest(t, hidden, page, slot) == all
      decreases if page.Some? then |t.pages| - page.value else -1, if page.Some? then |t.pages[page.value].slots| - slot else 0
    {
      var here := page.value;
      var found := ScanPage(t.pages[here], slot);
      if found.Some? {
        SeqFound(t, hidden, here, slot, found.value);
        slot := found.value + 1;
        ghost var rest := SeqRest(t, hidden, page, slot);
        var row := t.pages[here].slots[found.value];
        if Rid(t.pages[here].id, found.value) !in hidden {
          PullOne(row.value, rest);
          return Ok(row), page, slot;
        }
      } else {
        var next := if here + 1 < |t.pages| then Some(here + 1) else None;
        SeqPageDone(t, hidden, here, slot, next);
        page, slot := next, 0;
      }
    }
    return Ok(None), page, slot;
  }

  /** The loop of `IndexScanExecutor::next` over its leaf and the last key seen. */
  method PullIndex(t: Table, hidden: set<Rid>, leaves: Leaves, end: Option<Key>, leaf0: Option<nat>, after0: Option<Key>)
    returns (r: Result<Option<Row>>, leaf: Option<nat>, after: Option<Key>)
    requires InOrder(Flat(leaves)) && (leaf0.Some? ==> leaf0.value < |leaves|)
    ensures leaf.Some? ==> leaf.value < |leaves|
    ensures Pulls(IndexRest(t, hidden, leaves, leaf0, after0, end), r, IndexRest(t, hidden, leaves, leaf, after, end))
  {
    leaf, after := leaf0, after0;
    ghost var all := IndexRest(t, hidden, leaves, leaf, after, end);
    while leaf.Some?
      invariant leaf.Some? ==> leaf.value < |leaves|
      invariant IndexRest(t, hidden, leaves, leaf, after, end) == all
      decreases if leaf.Some? then |leaves| - leaf.value else -1, if leaf.Some? then |Selected(Flat(leaves[leaf.value..]), after, end)| else 0
    {
      var here := leaf.value;
      var found := ScanLeaf(leaves[here], after);
      if found.Some? {
        var e := leaves[here][found.value];
        InOrderFrom(leaves, here);
        IndexFound(leaves, here, after, end, found.value);
        after := Some(EntryKey(e));
        if !Before(e, end) { return Ok(None), None, after; }
        ghost var rest := Selected(Flat(leaves[here..]), after, end);
        IndexStep(t, hidden, e, rest);
        if e.rid !in hidden {
          var row := RowAt(t, e.rid);
          if row.None? { return Err, leaf, after; }
          PullOne(row.value, IndexRest(t, hidden, leaves, leaf, after, end));
          return Ok(row), leaf, after;
        }
      } else {
        LeafDone(leaves, here, after, end);
        assert leaves[|leaves|..] == [];
        leaf := if here + 1 < |leaves| then Some(here + 1) else None;
      }
    }
    return Ok(None), leaf, after;
  }

  // ---- Operators ----

  class Executor {
    const plan: Plan
    const db: Database
    const child: Executor?
    ghost const Repr: set<object>
    var emitted: bool
    var page: Option<nat>
    var slot: nat
    var leaf: Option<nat>
    var after: Option<Key>

    ghost predicate Valid()
      reads this, Repr
      decreases Repr
    {
      && this in Repr && Ready(db)
      && (child != null <==> plan.Filter? || plan.Projection?)
      && (child != null ==> child in Repr && child.Repr <= Repr && this !in child.Repr && child.Valid()
                            && child.db == db && child.plan == plan.input)
      && (plan.SeqScan? && plan.table in db.tables && page.Some? ==> page.value < |db.tables[plan.table].pages|)
      && (plan.IndexScan? && plan.index in db.indexes && leaf.Some? ==> leaf.value < |db.indexes[plan.index]|)
    }

    /** The rows still to come. */
    ghost function Rest(): Stream<Row>
      requires Valid()
      reads this, Repr
      decreases Repr
    {
      match plan
      case OneRow => Stream(if emitted then [] else [[]], false)
      case SeqScan(t) =>
        if t !in db.tables then Stream([], true)
        else SeqRest(db.tables[t], db.hidden, page, slot)
      case IndexScan(i, t, _, end) =>
        if t !in db.tables || i !in db.indexes then Stream([], true)
        else IndexRest(db.tables[t], db.hidden, db.indexes[i], leaf, after, end)
      case Filter(q, _) => Each(Keeping(q), child.Rest())
      case Projection(es, _) => Each(Projecting(es), child.Rest())
      case Join(_, _, _) => Stream([], true)
      case Statement(_) => Stream([], true)
    }

    /** `SeqScanExecutor::next`. */
    method NextSeq() returns (r: Result<Option<Row>>)
      requires Valid() && plan.SeqScan?
      modifies this
      ensures Valid() && Pulls(old(Rest()), r, Rest())
    {
      if plan.table !in db.tables { return Err; }
      r, page, slot := PullSeq(db.tables[plan.table], db.hidden, page, slot);
    }

    /** `IndexScanExecutor::next`. */
    method NextIndex() returns (r: Result<Option<Row>>)
      requires Valid() && plan.IndexScan?
      modifies this
      ensures Valid() && Pulls(old(Rest()), r, Rest())
    {
      if plan.of !in db.tables || plan.index !in db.indexes { return Err; }
      r, leaf, after := PullIndex(db.tables[plan.of], db.hidden, db.indexes[plan.index], plan.end, leaf, after);
    }

    /** `FilterExecutor::next`. */
    method NextFilter() returns (r: Result<Option<Row>>)
      requires Valid() && plan.Filter?
      modifies Repr
      ensures Valid() && Pulls(old(Rest()), r, Rest())
      decreases plan, 0
    {
      while true
        invariant Valid() && Each(Keeping(plan.condition), child.Rest()) == old(Rest())
        decreases |child.Rest().items|
      {
        ghost var before := child.Rest();
        var pulled := child.Next();
        EachPulled(Keeping(plan.condition), before, pulled, child.Rest());
        if pulled.Err? { return Err; }
        if pulled.value.None? { return Ok(None); }
        var row := pulled.value.value;
        var v := Evaluate(plan.condition, row);
        if v.Err? { return Err; }
        if v.value == Boolean(true) {
          PullOne(row, Each(Keeping(plan.condition), child.Rest()));
          return Ok(Some(row));
        }
      }
    }

    /** `ProjectionExecutor::next`. */
    method NextProjection() returns (r: Result<Option<Row>>)
      requires Valid() && plan.Projection?
      modifies Repr
      ensures Valid() && Pulls(old(Rest()), r, Rest())
      decreases plan, 0
    {
      ghost var before := child.Rest();
      var pulled := child.Next();
      EachPulled(Projecting(plan.expressions), before, pulled, child.Rest());
      if pulled.Err? { return Err; }
      if pulled.value.None? { return Ok(None); }
      var values := Values(plan.expressions, pulled.value.value);
      if values.Err? { return Err; }
      PullOne(values.value, Each(Projecting(plan.expressions), child.Rest()));
      return Ok(Some(values.value));
    }

    /** `Executor::next`. */
    method Next() returns (r: Result<Option<Row>>)
      requires Valid()
      modifies Repr
      ensures Valid() && Pulls(old(Rest()), r, Rest())
      decreases plan, 1
    {
      match plan {
        case OneRow =>
          if emitted { return Ok(None); }
          emitted := true;
          return Ok(Some([]));
        case SeqScan(_) => r := NextSeq();
        case IndexScan(_, _, _, _) => r := NextIndex();
        case Filter(_, _) => r := NextFilter();
        case Projection(_, _) => r := NextProjection();
        case _ => return Err;
      }
    }

    /** Build the operators of a plan and initialise them. */
    constructor (p: Plan, d: Database)
      requires Ready(d)
      ensures Valid() && fresh(Repr) && plan == p && db == d && Rest() == Run(p, d)
      decreases p
    {
      plan, db := p, d;
      emitted, slot := false, 0;
      page := if p.SeqScan? && p.table in d.tables && d.tables[p.table].pages != [] then Some(0) else None;
      if p.IndexScan? && p.index in d.indexes {
        var first := LeafForStart(d.indexes[p.index], p.start, p.end);
        leaf, after := first, p.start;
      } else {
        leaf, after := None, None;
      }
      if p.Filter? || p.Projection? {
        var c := new Executor(p.input, d);
        child := c;
        Repr := c.Repr + {this};
      } else {
        child := null;
        Repr := {this};
      }
    }
  }

  /** What one step of an operator makes of one pull from its input. */
  lemma {:induction false} EachPulled<A, B>(f: A -> Result<seq<B>>, before: Stream<A>, r: Result<Option<A>>, after: Stream<A>)
    requires Pulls(before, r, after)
    ensures r.Err? ==> Each(f, before) == Stream([], true)
    ensures r == Ok(None) ==> Each(f, before) == Stream([], false) && after == before
    ensures r.Ok? && r.value.Some? && f(r.value.value).Err? ==> Each(f, before) == Stream([], true)
    ensures r.Ok? && r.value.Some? && f(r.value.value).Ok? ==> Each(f, before) == Prepend(f(r.value.value).value, Each(f, after))
    ensures r.Ok? && r.value.Some? && f(r.value.value) == Ok([]) ==> Each(f, before) == Each(f, after)
    ensures r.Ok? && r.value.Some? ==> |after.items| < |before.items|
  {
  }

  /** `leaf_for_start`: no leaf before the one it returns holds an entry past the lower bound. */
  method LeafForStart(leaves: Leaves, start: Option<Key>, ghost end: Option<Key>) returns (leaf: Option<nat>)
    ensures leaf.Some? ==> leaf.value < |leaves|
    ensures if leaf.None? then leaves == [] else Selected(Flat(leaves[leaf.value..]), start, end) == Selected(Flat(leaves), start, end)
  {
    if leaves == [] { return None; }
    assert leaves[0..] == leaves;
    var i := 0;
    while i + 1 < |leaves|
      invariant i < |leaves| && Selected(Flat(leaves[i..]), start, end) == Selected(Flat(leaves), start, end)
    {
      var found := ScanLeaf(leaves[i], start);
      if found.Some? { break; }
      LeafDone(leaves, i, start, end);
      i := i + 1;
    }
    return Some(i);
  }

  /** Pull until the end. */
  method Execute(p: Plan, db: Database) returns (r: Result<seq<Row>>)
    requires Ready(db)
    ensures r == if Run(p, db).failed then Err else Ok(Run(p, db).items)
  {
    var root := new Executor(p, db);
    ghost var all := root.Rest();
    var rows := [];
    while true
      invariant root.Valid() && fresh(root.Repr) && all == Prepend(rows, root.Rest())
      decreases |root.Rest().items|
    {
      ghost var before := root.Rest();
      var pulled := root.Next();
      PullNext(all, rows, before, pulled, root.Rest());
      if pulled.Err? { return Err; }
      if pulled.value.None? { return Ok(rows); }
      rows := rows + [pulled.value.value];
    }
  }

  lemma {:induction false} PullNext<T>(all: Stream<T>, done: seq<T>, before: Stream<T>, r: Result<Option<T>>, after: Stream<T>)
    requires all == Prepend(done, before) && Pulls(before, r, after)
    ensures r.Err? ==> all.failed
    ensures r == Ok(None) ==> all == Stream(done, false)
    ensures r.Ok? && r.value.Some? ==> all == Prepend(done + [r.value.value], after) && |after.items| < |before.items|
  {
    if r.Ok? && r.value.Some? {
      assert done + before.items == (done + [r.value.value]) + after.items;
    } else {
      assert done + [] == done;
    }
  }

  /** A query runs the optimized plan and returns the rows of the plan as it was bound, whenever that raises no error. */
  method Query(p: Plan, db: Database) returns (r: Result<seq<Row>>)
    requires Ready(db) && DatabaseOk(db)
    ensures !Run(p, db).failed ==> r.Ok? && multiset(r.value) == multiset(Run(p, db).items)
  {
    var best := Optimize(p, db.catalog);
    if !Run(p, db).failed { RewriteKeepsRows(p, best, db); }
    r := Execute(best, db);
  }

  lemma {:induction false} IndexStep(t: Table, hidden: set<Rid>, e: Entry, rest: seq<Entry>)
    ensures var after := Each(Fetching(t, hidden), Stream(RidsOf(rest), false));
            Each(Fetching(t, hidden), Stream(RidsOf([e] + rest), false))
            == if e.rid in hidden then after else if RowAt(t, e.rid).None? then Stream([], true) else Prepend([RowAt(t, e.rid).value], after)
  {
    OneMoreRid(e, rest);
    assert RidsOf([e] + rest)[1..] == RidsOf(rest);
    var after := Each(Fetching(t, hidden), Stream(RidsOf(rest), false));
    assert Prepend([], after) == after;
  }
}
