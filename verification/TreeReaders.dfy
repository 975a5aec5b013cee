/** Readers of the B+tree. A reader latches one page at a time, so inserts run between its steps: it
    sees page by page a sequence of trees, each grown from the one before. */
module TreeReaders {
  import opened KeyOrder
  import opened TreeShape
  import opened BTree

  // ---- The trees a reader may meet ----

  ghost predicate Readable(t: Tree, s: Shape)
  {
    exists pend :: Inv(t, s, pend)
  }

  ghost predicate StateOk(trees: seq<Tree>, shapes: seq<Shape>, j: int)
  {
    0 <= j < |trees| == |shapes| ==> Readable(trees[j], shapes[j])
  }

  ghost predicate Later(shapes: seq<Shape>, i: int, j: int)
  {
    0 <= i <= j < |shapes| ==> Evolves(shapes[i], shapes[j])
  }

  /** Successive states of one tree, splits in progress included. */
  ghost predicate Schedule(trees: seq<Tree>, shapes: seq<Shape>)
  {
    && 0 < |trees| == |shapes|
    && (forall j :: StateOk(trees, shapes, j))
    && (forall i, j :: Later(shapes, i, j))
  }

  /** The page is part of every state from some point on, with the same lower bound and level. */
  lemma {:induction false} SeenLater(trees: seq<Tree>, shapes: seq<Shape>, i: nat, j: nat, p: PageId)
    requires Schedule(trees, shapes) && i <= j < |trees| && p in shapes[i].at
    ensures p in shapes[j].at && p in trees[j].pages && PageOk(trees[j], shapes[j], p)
    ensures shapes[j].at[p].lo == shapes[i].at[p].lo && shapes[j].at[p].level == shapes[i].at[p].level
    ensures shapes[i].all <= shapes[j].all
  {
    assert Later(shapes, i, j) && Stays(shapes[i], shapes[j], p) && StateOk(trees, shapes, j);
    var pend :| Inv(trees[j], shapes[j], pend);
    LivePage(trees[j], shapes[j], pend, p);
  }

  /** The child for a key starts at or below the key. */
  lemma {:induction false} ChildStartsBelow(t: Tree, s: Shape, p: PageId, key: Key, i: nat)
    requires p in s.at && PageOk(t, s, p) && t.pages[p].Internal? && s.at[p].lo <= Rank(key) && UpperBound(t.pages[p].keys, key, i)
    ensures i < |t.pages[p].kids| && t.pages[p].kids[i] in s.at
    ensures s.at[t.pages[p].kids[i]].lo <= Rank(key) && s.at[t.pages[p].kids[i]].level < s.at[p].level
  {
    assert SlotOk(s.at, t.pages[p], s.at[p], i);
  }

  /** `descend_to_leaf` from the current root or any past one. */
  method DescendToLeaf(trees: seq<Tree>, ghost shapes: seq<Shape>, start: PageId, key: Key) returns (leaf: PageId, j: nat)
    requires Schedule(trees, shapes) && start in shapes[0].at && shapes[0].at[start].lo <= Rank(key)
    ensures j < |trees| && leaf in shapes[j].at && shapes[j].at[leaf].level == 0 && shapes[j].at[leaf].lo <= Rank(key)
  {
    leaf, j := start, 0;
    while true
      invariant j < |trees| && leaf in shapes[j].at && shapes[j].at[leaf].lo <= Rank(key)
      decreases shapes[j].at[leaf].level
    {
      var now: nat :| j <= now < |trees|;
      SeenLater(trees, shapes, j, now, leaf);
      j := now;
      match trees[j].pages[leaf] {
        case Leaf(_, _) => return;
        case Internal(keys, kids) =>
          var i := FindUpperBound(keys, key);
          ChildStartsBelow(trees[j], shapes[j], leaf, key, i);
          leaf := kids[i];
      }
    }
  }

  /** `leftmost_leaf`. */
  method LeftmostLeaf(trees: seq<Tree>, ghost shapes: seq<Shape>, start: PageId) returns (leaf: PageId, j: nat)
    requires Schedule(trees, shapes) && start in shapes[0].at && shapes[0].at[start].lo == 0.0
    ensures j < |trees| && leaf in shapes[j].at && shapes[j].at[leaf].level == 0 && shapes[j].at[leaf].lo == 0.0
  {
    leaf, j := start, 0;
    while true
      invariant j < |trees| && leaf in shapes[j].at && shapes[j].at[leaf].lo == 0.0
      decreases shapes[j].at[leaf].level
    {
      var now: nat :| j <= now < |trees|;
      SeenLater(trees, shapes, j, now, leaf);
      j := now;
      match trees[j].pages[leaf] {
        case Leaf(_, _) => return;
        case Internal(keys, kids) =>
          assert SlotOk(shapes[j].at, trees[j].pages[leaf], shapes[j].at[leaf], 0);
          leaf := kids[0];
      }
    }
  }

  // ---- Searching one leaf ----

  /** `lower_bound_leaf`: the first sort key not below `k`. */
  method FindLowerBound(keys: seq<Key>, k: Key) returns (i: nat)
    requires Sorted(keys)
    ensures i <= |keys|
    ensures forall j :: 0 <= j < i ==> Rank(keys[j]) < Rank(k)
    ensures forall j :: i <= j < |keys| ==> Rank(k) <= Rank(keys[j])
  {
    i := 0;
    var hi := |keys|;
    while i < hi
      invariant i <= hi <= |keys|
      invariant forall j :: 0 <= j < i ==> Rank(keys[j]) < Rank(k)
      invariant forall j :: hi <= j < |keys| ==> Rank(k) <= Rank(keys[j])
    {
      var mid := i + (hi - i) / 2;
      LessIsRank(keys[mid], k);
      if Less(keys[mid], k) { i := mid + 1; } else { hi := mid; }
    }
  }

  /** Either every sort key from `key` on was taken, or the first one of another key is at `stop`. */
  ghost predicate Took(keys: seq<Key>, key: Key, from: nat, stop: nat)
  {
    && from <= stop <= |keys|
    && (forall j :: 0 <= j < from ==> Rank(keys[j]) < Rank(key))
    && (forall j :: from <= j < |keys| ==> Rank(key) <= Rank(keys[j]))
    && (forall j :: from <= j < stop ==> |keys[j]| >= RID_LEN && KeyOf(keys[j]) == key)
    && (stop < |keys| ==> |keys[stop]| >= RID_LEN && KeyOf(keys[stop]) != key)
  }

  /** The inner loop of `get`. */
  method TakeMatches(keys: seq<Key>, key: Key) returns (from: nat, stop: nat)
    requires Sorted(keys) && forall j :: 0 <= j < |keys| ==> |keys[j]| >= RID_LEN
    ensures Took(keys, key, from, stop)
  {
    from := FindLowerBound(keys, key);
    stop := from;
    while stop < |keys| && KeyOf(keys[stop]) == key
      invariant from <= stop <= |keys|
      invariant forall j :: from <= j < stop ==> KeyOf(keys[j]) == key
    {
      stop := stop + 1;
    }
  }

  /** Once a sort key of another key is met, no sort key of `key` follows. */
  lemma {:induction false} NothingAfterStop(key: Key, other: Key, k: Key)
    requires SameOrApart(other, k) && KeyOf(k) == key && KeyOf(other) != key && Rank(key) <= Rank(other)
    ensures Rank(k) < Rank(other)
  {
    var b := KeyOf(other);
    assert k == key + k[|key|..] && other == b + other[|b|..];
    ApartDecides(b, key, other[|b|..], k[|key|..]);
  }

  // ---- Point lookup ----

  /** The sort keys of `key` stored in `all` that are not in `found` lie at or right of `lo`. */
  ghost predicate RestIsRight(all: set<Key>, key: Key, found: seq<Key>, lo: real)
  {
    forall k :: Missing(all, key, found, k) ==> lo <= Rank(k)
  }

  predicate Missing(all: set<Key>, key: Key, found: seq<Key>, k: Key)
  {
    k in all && |k| >= RID_LEN && KeyOf(k) == key && k !in found
  }

  /** `found` are distinct stored sort keys of `key`, all left of `lo`. */
  ghost predicate FoundOk(all: set<Key>, key: Key, found: seq<Key>, lo: real)
  {
    Sorted(found) && forall j :: 0 <= j < |found| ==>
      found[j] in all && |found[j]| >= RID_LEN && KeyOf(found[j]) == key && Rank(found[j]) < lo
  }

  /** Pages still to the right of a position: what a walk along the leaf chain has left. */
  ghost function Ahead(s: Shape, x: real): set<PageId>
  {
    set p | p in s.at && x < s.at[p].lo
  }

  lemma {:induction false} AheadShrinks(s: Shape, p: PageId, q: PageId)
    requires p in s.at && q in s.at && s.at[p].lo < s.at[q].lo
    ensures Ahead(s, s.at[q].lo) < Ahead(s, s.at[p].lo)
  {
    assert q in Ahead(s, s.at[p].lo) && q !in Ahead(s, s.at[q].lo);
  }

  ghost predicate ReadLeaf(s: Shape, n: Node, e: Extent)
  {
    n.Leaf? && LeafOk(s, e, n) && e.lo < e.hi <= 1.0
  }

  lemma {:induction false} TookAppends(s: Shape, n: Node, e: Extent, key: Key, found: seq<Key>, from: nat, stop: nat)
    requires ReadLeaf(s, n, e) && FoundOk(s.all, key, found, e.lo) && Took(n.keys, key, from, stop)
    ensures FoundOk(s.all, key, found + n.keys[from..stop], e.hi)
  {
    var more := found + n.keys[from..stop];
    forall j | 0 <= j < |more|
      ensures more[j] in s.all && |more[j]| >= RID_LEN && KeyOf(more[j]) == key && Rank(more[j]) < e.hi
    {
      if j >= |found| {
        assert more[j] == n.keys[from + j - |found|];
        assert more[j] in n.keys;
      }
    }
    forall a, b | 0 <= a < b < |more| ensures Rank(more[a]) < Rank(more[b]) {
      if b >= |found| { assert more[b] == n.keys[from + b - |found|]; }
      if a >= |found| { assert more[a] == n.keys[from + a - |found|]; }
    }
  }

  /** After a leaf has been read, what is missing is right of it; and nothing is, if the loop stopped inside. */
  lemma {:induction false} TookAll(s: Shape, n: Node, e: Extent, first: set<Key>, key: Key, found: seq<Key>, from: nat, stop: nat)
    requires ReadLeaf(s, n, e) && first <= s.all && PrefixFree(s.all) && RestIsRight(first, key, found, e.lo) && Took(n.keys, key, from, stop)
    ensures RestIsRight(first, key, found + n.keys[from..stop], e.hi)
    ensures stop < |n.keys| || n.next == NoPage ==> forall k :: !Missing(first, key, found + n.keys[from..stop], k)
  {
    var more := found + n.keys[from..stop];
    forall k | Missing(first, key, more, k) ensures e.hi <= Rank(k) && stop == |n.keys| && n.next != NoPage {
      assert Missing(first, key, found, k);
      TookOne(s, n, e, key, k, from, stop);
    }
  }

  lemma {:induction false} TookOne(s: Shape, n: Node, e: Extent, key: Key, k: Key, from: nat, stop: nat)
    requires ReadLeaf(s, n, e) && PrefixFree(s.all) && Took(n.keys, key, from, stop)
    requires k in s.all && |k| >= RID_LEN && KeyOf(k) == key && e.lo <= Rank(k)
    ensures k in n.keys[from..stop] || (e.hi <= Rank(k) && stop == |n.keys| && n.next != NoPage)
  {
    assert k == key + k[|key|..];
    PrefixIsNotAbove(key, k[|key|..]);
    if stop < |n.keys| {
      assert n.keys[stop] in n.keys;
      assert SameOrApart(n.keys[stop], k);
      NothingAfterStop(key, n.keys[stop], k);
    }
    if Rank(k) < e.hi {
      assert k in n.keys;
      var j :| 0 <= j < |n.keys| && n.keys[j] == k;
      assert from <= j < stop;
      assert n.keys[from..stop][j - from] == k;
    }
  }

  function Rids(found: seq<Key>): (r: seq<Rid>)
    requires forall j :: 0 <= j < |found| ==> |found[j]| >= RID_LEN
    ensures |r| == |found| && forall j :: 0 <= j < |r| ==> r[j] == RidOf(found[j])
  {
    seq(|found|, j requires 0 <= j < |found| => RidOf(found[j]))
  }

  lemma {:induction false} RidsMore(a: seq<Key>, b: seq<Key>)
    requires forall j :: 0 <= j < |a| ==> |a[j]| >= RID_LEN
    requires forall j :: 0 <= j < |b| ==> |b[j]| >= RID_LEN
    ensures (forall j :: 0 <= j < |a + b| ==> |(a + b)[j]| >= RID_LEN) && Rids(a + b) == Rids(a) + Rids(b)
  {
  }

  /** `get`: with no stored key a proper prefix of another, every rid of the key that was there when the
      lookup began is returned, nothing that is not there when it ends, and nothing twice. */
  method Get(trees: seq<Tree>, ghost shapes: seq<Shape>, start: PageId, key: Key) returns (rids: seq<Rid>)
    requires Schedule(trees, shapes) && start in shapes[0].at && shapes[0].at[start].lo == 0.0
    requires PrefixFree(shapes[|shapes| - 1].all)
    ensures forall rid :: SortKey(key, rid) in shapes[0].all ==> rid in rids
    ensures forall rid :: rid in rids ==> SortKey(key, rid) in shapes[|shapes| - 1].all
    ensures forall i, j :: 0 <= i < j < |rids| ==> rids[i] != rids[j]
  {
    var cur, j := DescendToLeaf(trees, shapes, start, key);
    rids := [];
    ghost var found: seq<Key> := [];
    ghost var first, last := shapes[0].all, shapes[|shapes| - 1].all;
    BeforeTheLeaf(first, key, shapes[j].at[cur].lo);
    while true
      invariant j < |trees| && cur in shapes[j].at && shapes[j].at[cur].level == 0
      invariant FoundOk(shapes[j].all, key, found, shapes[j].at[cur].lo) && RestIsRight(first, key, found, shapes[j].at[cur].lo)
      invariant rids == Rids(found)
      decreases |trees| - j, Ahead(shapes[j], shapes[j].at[cur].lo)
    {
      var now: nat :| j <= now < |trees|;
      SeenLater(trees, shapes, j, now, cur);
      SeenFirst(trees, shapes, now);
      ghost var e := shapes[now].at[cur];
      var n := trees[now].pages[cur];
      var from, stop := TakeMatches(n.keys, key);
      TookAppends(shapes[now], n, e, key, found, from, stop);
      TookAll(shapes[now], n, e, first, key, found, from, stop);
      RidsMore(found, n.keys[from..stop]);
      rids := rids + Rids(n.keys[from..stop]);
      found := found + n.keys[from..stop];
      if stop < |n.keys| || n.next == NoPage {
        FoundEverything(first, shapes[now].all, last, key, found, e.hi);
        return;
      }
      assert n.next in Ahead(shapes[now], e.lo);
      cur, j := n.next, now;
    }
  }

  lemma {:induction false} BeforeTheLeaf(first: set<Key>, key: Key, lo: real)
    requires lo <= Rank(key)
    ensures RestIsRight(first, key, [], lo)
  {
    forall k | Missing(first, key, [], k) ensures lo <= Rank(k) {
      assert k == key + k[|key|..];
      PrefixIsNotAbove(key, k[|key|..]);
    }
  }

  lemma {:induction false} SeenFirst(trees: seq<Tree>, shapes: seq<Shape>, j: nat)
    requires Schedule(trees, shapes) && j < |shapes| && PrefixFree(shapes[|shapes| - 1].all)
    ensures shapes[0].all <= shapes[j].all <= shapes[|shapes| - 1].all && PrefixFree(shapes[j].all)
  {
    assert Later(shapes, 0, j) && Later(shapes, j, |shapes| - 1);
  }

  lemma {:induction false} FoundEverything(first: set<Key>, now: set<Key>, last: set<Key>, key: Key, found: seq<Key>, lo: real)
    requires now <= last && FoundOk(now, key, found, lo) && forall k :: !Missing(first, key, found, k)
    ensures forall rid :: SortKey(key, rid) in first ==> rid in Rids(found)
    ensures forall rid :: rid in Rids(found) ==> SortKey(key, rid) in last
    ensures forall i, j :: 0 <= i < j < |found| ==> Rids(found)[i] != Rids(found)[j]
  {
    var rids := Rids(found);
    forall rid | SortKey(key, rid) in first ensures rid in rids {
      SortKeyRoundTrip(key, rid);
      assert !Missing(first, key, found, SortKey(key, rid));
      var i :| 0 <= i < |found| && found[i] == SortKey(key, rid);
      assert rids[i] == rid;
    }
    forall i | 0 <= i < |found| ensures SortKey(key, rids[i]) == found[i] { SortKeyOfParts(found[i]); }
  }

  // ---- Range scans ----

  datatype Bound = Unbounded | At(key: Key)

  datatype RangeState = NotStarted | InLeaf(page: PageId, after: Bound) | Finished

  datatype LeafScan = Entry(sortKey: Key) | EndOfLeaf(next: PageId)

  ghost predicate Past(after: Bound, k: Key)
  {
    after.At? ==> Rank(after.key) < Rank(k)
  }

  /** `scan_leaf`: the first entry past `after`. */
  method ScanLeaf(n: Node, after: Bound) returns (r: LeafScan)
    requires n.Leaf? && Sorted(n.keys)
    ensures r.Entry? ==> r.sortKey in n.keys && Past(after, r.sortKey) && forall k :: k in n.keys && Past(after, k) ==> Rank(r.sortKey) <= Rank(k)
    ensures r.EndOfLeaf? ==> r.next == n.next && forall k :: k in n.keys ==> !Past(after, k)
  {
    var slot := 0;
    if after.At? {
      slot := FindLowerBound(n.keys, after.key);
      if slot < |n.keys| && n.keys[slot] == after.key { slot := slot + 1; }
      if slot < |n.keys| && Rank(n.keys[slot]) == Rank(after.key) { RankIsInjective(n.keys[slot], after.key); }
    }
    if slot >= |n.keys| { return EndOfLeaf(n.next); }
    return Entry(n.keys[slot]);
  }

  /** Is the entry between the bounds? The lower bound is inclusive, the upper one is not. */
  ghost predicate InRange(start: Bound, end: Bound, k: Key)
  {
    && |k| >= RID_LEN
    && (start.At? ==> Rank(start.key) <= Rank(KeyOf(k)))
    && (end.At? ==> Rank(KeyOf(k)) < Rank(end.key))
  }

  ghost predicate Unseen(first: set<Key>, start: Bound, end: Bound, out: seq<Key>, k: Key)
  {
    k in first && InRange(start, end, k) && k !in out
  }

  /** The scan has yielded `out` and stands in front of the entries past `after` in leaf `p`. */
  ghost predicate Standing(s: Shape, first: set<Key>, start: Bound, end: Bound, out: seq<Key>, p: PageId, after: Bound)
  {
    && p in s.at && s.at[p].level == 0
    && (forall k :: Unseen(first, start, end, out, k) ==> s.at[p].lo <= Rank(k) && Past(after, k))
    && Behind(out, after)
  }

  ghost predicate Behind(out: seq<Key>, after: Bound)
  {
    out != [] ==> after.At? && forall j :: 0 <= j < |out| ==> Rank(out[j]) <= Rank(after.key)
  }

  lemma {:induction false} StartsInFront(s: Shape, first: set<Key>, start: Bound, end: Bound, p: PageId)
    requires p in s.at && s.at[p].level == 0
    requires if start.At? then s.at[p].lo <= Rank(start.key) else s.at[p].lo == 0.0
    ensures Standing(s, first, start, end, [], p, start)
  {
    forall k | Unseen(first, start, end, [], k) ensures s.at[p].lo <= Rank(k) && Past(start, k) {
      assert k == KeyOf(k) + k[|k| - RID_LEN..];
      PrefixIsBelow(KeyOf(k), k[|k| - RID_LEN..]);
    }
  }

  lemma {:induction false} NextLeaf(s: Shape, first: set<Key>, start: Bound, end: Bound, out: seq<Key>, p: PageId, n: Node, after: Bound)
    requires Standing(s, first, start, end, out, p, after) && ReadLeaf(s, n, s.at[p]) && first <= s.all
    requires forall k :: k in n.keys ==> !Past(after, k)
    ensures if n.next == NoPage then forall k :: !Unseen(first, start, end, out, k)
            else Standing(s, first, start, end, out, n.next, after) && s.at[p].lo < s.at[n.next].lo
  {
    forall k | Unseen(first, start, end, out, k) ensures n.next in s.at && s.at[n.next].lo <= Rank(k) && Past(after, k) {
      assert k in n.keys <==> Inside(s.at[p], k);
    }
  }

  lemma {:induction false} NextEntry(s: Shape, first: set<Key>, start: Bound, end: Bound, out: seq<Key>, p: PageId, n: Node, after: Bound, k: Key)
    requires Standing(s, first, start, end, out, p, after) && ReadLeaf(s, n, s.at[p]) && first <= s.all
    requires k in n.keys && Past(after, k) && forall x :: x in n.keys && Past(after, x) ==> Rank(k) <= Rank(x)
    ensures Standing(s, first, start, end, out + [k], p, At(k)) && k in s.all
    ensures forall x :: Unseen(first, start, end, out, x) ==> Rank(k) <= Rank(x)
  {
    forall x | Unseen(first, start, end, out, x) ensures Rank(k) <= Rank(x) {
      if Rank(x) < s.at[p].hi { assert x in n.keys; }
    }
    var more := out + [k];
    forall x | Unseen(first, start, end, more, x) ensures s.at[p].lo <= Rank(x) && Past(At(k), x) {
      assert more[|out|] == k;
      assert Unseen(first, start, end, out, x);
      if Rank(x) == Rank(k) { RankIsInjective(x, k); }
    }
  }

  /** An entry at or beyond the upper bound ends the scan: nothing unseen can follow it. */
  lemma {:induction false} BeyondTheEnd(s: Shape, first: set<Key>, start: Bound, end: Bound, out: seq<Key>, k: Key)
    requires end.At? && k in s.all && first <= s.all && PrefixFree(s.all) && |k| >= RID_LEN && Rank(end.key) <= Rank(KeyOf(k))
    requires forall x :: Unseen(first, start, end, out, x) ==> Rank(k) <= Rank(x)
    ensures forall x :: !Unseen(first, start, end, out, x)
  {
    forall x | Unseen(first, start, end, out, x) ensures false {
      assert SameOrApart(k, x);
      SortOrderIsKeyOrder(k, x);
    }
  }

  lemma {:induction false} StillStanding(s: Shape, s': Shape, first: set<Key>, start: Bound, end: Bound, out: seq<Key>, p: PageId, after: Bound)
    requires Standing(s, first, start, end, out, p, after) && Evolves(s, s')
    ensures Standing(s', first, start, end, out, p, after)
  {
    assert Stays(s, s', p);
  }

  /** `BTreeRangeIterator`. */
  class RangeIterator {
    var state: RangeState
    const root: PageId
    const start: Bound
    const end: Bound
    ghost const first: set<Key>  // what was stored when the scan was made
    ghost var out: seq<Key>      // what has been yielded

    constructor (root: PageId, start: Bound, end: Bound, ghost s: Shape)
      requires root in s.at && s.at[root].lo == 0.0
      ensures Ready(s) && out == [] && first == s.all && this.start == start && this.end == end
    {
      state := NotStarted;
      this.root, this.start, this.end := root, start, end;
      first, out := s.all, [];
    }

    /** What has been yielded is increasing and stored; what is left of the first contents is still in front. */
    ghost predicate Ready(s: Shape)
      reads this
    {
      && first <= s.all && Sorted(out) && (forall k :: k in out ==> k in s.all)
      && match state {
           case NotStarted => out == [] && root in s.at && s.at[root].lo == 0.0
           case InLeaf(page, after) => Standing(s, first, start, end, out, page, after)
           case Finished => forall k :: !Unseen(first, start, end, out, k)
         }
    }

    lemma StaysReady(s: Shape, s': Shape)
      requires Ready(s) && Evolves(s, s')
      ensures Ready(s')
    {
      match state {
        case NotStarted => assert Stays(s, s', root);
        case InLeaf(page, after) => StillStanding(s, s', first, start, end, out, page, after);
        case Finished =>
      }
    }

    /** `leaf_for_start`. */
    method Begin(trees: seq<Tree>, ghost shapes: seq<Shape>) returns (j: nat)
      requires Schedule(trees, shapes) && Ready(shapes[0]) && state.NotStarted?
      modifies this`state
      ensures j < |trees| && Ready(shapes[j]) && state.InLeaf?
    {
      var leaf;
      match start {
        case At(key) => leaf, j := DescendToLeaf(trees, shapes, root, key);
        case Unbounded => leaf, j := LeftmostLeaf(trees, shapes, root);
      }
      StartsInFront(shapes[j], first, start, end, leaf);
      assert Later(shapes, 0, j);
      state := InLeaf(leaf, start);
    }

    /** One turn of the loop of `next`: read the current leaf once. */
    method Step(trees: seq<Tree>, ghost shapes: seq<Shape>, ghost j: nat, now: nat) returns (r: seq<(Key, Rid)>)
      requires Schedule(trees, shapes) && PrefixFree(shapes[|shapes| - 1].all) && j <= now < |trees| && state.InLeaf? && Ready(shapes[j])
      modifies this
      ensures Ready(shapes[now]) && old(state.page) in shapes[now].at
      ensures r == [] ==> out == old(out) && (state.Finished? || (state.InLeaf? && shapes[now].at[old(state.page)].lo < shapes[now].at[state.page].lo))
      ensures r != [] ==> state.InLeaf? && out == old(out) + [SortKey(r[0].0, r[0].1)] && (end.At? ==> Rank(r[0].0) < Rank(end.key))
    {
      var p, after := state.page, state.after;
      SeenLater(trees, shapes, j, now, p);
      SeenFirst(trees, shapes, now);
      assert Later(shapes, j, now);
      StaysReady(shapes[j], shapes[now]);
      var n := trees[now].pages[p];
      var scan := ScanLeaf(n, after);
      r := [];
      match scan {
        case EndOfLeaf(next) =>
          NextLeaf(shapes[now], first, start, end, out, p, n, after);
          state := if next == NoPage then Finished else InLeaf(next, after);
        case Entry(k) =>
          NextEntry(shapes[now], first, start, end, out, p, n, after, k);
          if end.At? && !Less(KeyOf(k), end.key) {
            LessIsRank(KeyOf(k), end.key);
            BeyondTheEnd(shapes[now], first, start, end, out, k);
            state := Finished;
          } else {
            if end.At? { LessIsRank(KeyOf(k), end.key); }
            SortKeyOfParts(k);
            r := [(KeyOf(k), RidOf(k))];
            Yield(shapes[now], k, after);
            state, out := InLeaf(p, At(k)), out + [k];
          }
      }
    }

    lemma Yield(s: Shape, k: Key, after: Bound)
      requires Sorted(out) && Past(after, k) && Behind(out, after)
      ensures Sorted(out + [k])
    {
    }

    /** `next`: the entry after the last one yielded, or the end of the scan. Other inserts run meanwhile. */
    method Next(trees: seq<Tree>, ghost shapes: seq<Shape>) returns (r: seq<(Key, Rid)>)
      requires Schedule(trees, shapes) && Ready(shapes[0]) && PrefixFree(shapes[|shapes| - 1].all)
      modifies this
      ensures Ready(shapes[|shapes| - 1])
      ensures r == [] ==> state == Finished && out == old(out)
      ensures r != [] ==> out == old(out) + [SortKey(r[0].0, r[0].1)] && (end.At? ==> Rank(r[0].0) < Rank(end.key))
    {
      var j: nat := 0;
      r := [];
      if state.NotStarted? { j := Begin(trees, shapes); }
      while state.InLeaf?
        invariant j < |trees| && Ready(shapes[j]) && out == old(out) && !state.NotStarted? && r == []
        decreases |trees| - j, state.InLeaf?, if state.InLeaf? then Ahead(shapes[j], shapes[j].at[state.page].lo) else {}
      {
        var now: nat :| j <= now < |trees|;
        ghost var p := state.page;
        r := Step(trees, shapes, j, now);
        if r == [] && state.InLeaf? { AheadShrinks(shapes[now], p, state.page); }
        j := now;
        if r != [] { break; }
      }
      assert Later(shapes, j, |shapes| - 1);
      StaysReady(shapes[j], shapes[|shapes| - 1]);
    }
  }
}
