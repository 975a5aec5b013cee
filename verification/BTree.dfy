/** Inserting into the B+tree: descent with early release of ancestors, leaf and internal splits, new roots. */
module BTree {
  import opened KeyOrder
  import opened SplitPoints
  import opened TreeShape

  /** TooLarge: the key exceeds the maximum. Overflow: a half of a leaf split does not fit a page. */
  datatype Outcome = Done | TooLarge | Overflow

  // ---- Searching one node ----

  /** `upper_bound`: binary search for the first separator above `k`. */
  method FindUpperBound(keys: seq<Key>, k: Key) returns (i: nat)
    requires Sorted(keys)
    ensures UpperBound(keys, k, i)
  {
    i := 0;
    var hi := |keys|;
    while i < hi
      invariant i <= hi <= |keys|
      invariant forall j :: 0 <= j < i ==> Rank(keys[j]) <= Rank(k)
      invariant forall j :: hi <= j < |keys| ==> Rank(k) < Rank(keys[j])
    {
      var mid := i + (hi - i) / 2;
      LessIsRank(k, keys[mid]);
      if !Less(k, keys[mid]) { i := mid + 1; } else { hi := mid; }
    }
  }

  lemma {:induction false} UpperBoundIsUnique(keys: seq<Key>, k: Key, i: nat, j: nat)
    requires UpperBound(keys, k, i) && UpperBound(keys, k, j)
    ensures i == j
  {
    assert i < |keys| ==> Rank(k) < Rank(keys[i]);
    assert j < |keys| ==> Rank(k) < Rank(keys[j]);
  }

  // ---- Sizes after a change ----

  function LeafCost(k: Key): nat { SLOT_LEN + 2 + |k| }
  function InternalCost(k: Key): nat { SLOT_LEN + 2 + |k| + 4 }

  lemma {:induction false} LeafSum(keys: seq<Key>, i: nat, k: Key)
    requires i <= |keys|
    ensures Sum(LeafCosts(Inserted(keys, i, k))) == Sum(LeafCosts(keys)) + LeafCost(k)
  {
    var c := LeafCosts(keys);
    SumInsert(c, i, LeafCost(k));
    assert LeafCosts(Inserted(keys, i, k)) == c[..i] + [LeafCost(k)] + c[i..];
  }

  lemma {:induction false} InternalSum(keys: seq<Key>, i: nat, k: Key)
    requires i <= |keys|
    ensures Sum(InternalCosts(Inserted(keys, i, k))) == Sum(InternalCosts(keys)) + InternalCost(k)
  {
    var c := InternalCosts(keys);
    SumInsert(c, i, InternalCost(k));
    assert InternalCosts(Inserted(keys, i, k)) == c[..i] + [InternalCost(k)] + c[i..];
  }

  lemma {:induction false} LeafSlices(keys: seq<Key>, m: nat)
    requires m <= |keys|
    ensures LeafCosts(keys[..m]) == LeafCosts(keys)[..m] && LeafCosts(keys[m..]) == LeafCosts(keys)[m..]
  {
  }

  lemma {:induction false} InternalSlices(keys: seq<Key>, m: nat)
    requires m <= |keys|
    ensures InternalCosts(keys[..m]) == InternalCosts(keys)[..m] && InternalCosts(keys[m..]) == InternalCosts(keys)[m..]
  {
  }

  /** An empty leaf takes any entry, so an overfull one has at least two. */
  lemma {:induction false} OverfullLeafHasTwo(keys: seq<Key>, k: Key)
    requires KeySize(k) && Sum(LeafCosts(keys)) + LeafCost(k) > CAPACITY
    ensures keys != []
  {
  }

  lemma {:induction false} SmallLeafSplits(keys: seq<Key>, i: nat, k: Key, m: nat)
    requires i <= |keys| && keys != [] && Sum(LeafCosts(keys)) <= CAPACITY && LeafCost(k) <= CAPACITY / 3
    requires forall j :: 0 <= j < |keys| ==> LeafCost(keys[j]) <= CAPACITY / 3
    requires Balanced(LeafCosts(Inserted(keys, i, k)), m)
    ensures var all := Inserted(keys, i, k); var at := LeafPoint(|all|, m);
            Sum(LeafCosts(all[..at])) <= CAPACITY && Sum(LeafCosts(all[at..])) <= CAPACITY
  {
    var all := Inserted(keys, i, k);
    var at := LeafPoint(|all|, m);
    LeafSum(keys, i, k);
    forall j | 0 <= j < |all| ensures LeafCosts(all)[j] <= CAPACITY / 3 {
      if j > i { assert all[j] == keys[j - 1]; }
    }
    LeafHalvesFit(LeafCosts(all), m);
    LeafSlices(all, at);
  }

  /** Internal nodes always split into halves that fit, for every key within the maximum. */
  lemma {:induction false} InternalSplits(keys: seq<Key>, i: nat, k: Key, m: nat)
    requires i <= |keys| && Sum(InternalCosts(keys)) <= CAPACITY && KeySize(k)
    requires forall j :: 0 <= j < |keys| ==> KeySize(keys[j])
    requires Balanced(InternalCosts(Inserted(keys, i, k)), m)
    ensures var all := Inserted(keys, i, k); var at := InternalPoint(|all|, m);
            && Sum(InternalCosts(all[..at])) <= CAPACITY && Sum(InternalCosts(all[at + 1..])) <= CAPACITY
            && (2 <= |keys| ==> all[..at] != [] && all[at + 1..] != [])
  {
    var all := Inserted(keys, i, k);
    var at := InternalPoint(|all|, m);
    InternalSum(keys, i, k);
    forall j | 0 <= j < |all| ensures InternalCosts(all)[j] <= CAPACITY {
      if j > i { assert all[j] == keys[j - 1]; }
    }
    InternalHalvesFit(InternalCosts(all), m);
    InternalSlices(all, at);
    InternalSlices(all, at + 1);
  }

  lemma {:induction false} OneEntryFits(k: Key, kids: seq<PageId>)
    requires KeySize(k)
    ensures Fits(Internal([k], kids))
  {
    assert InternalCosts([k]) == [InternalCost(k)];
  }

  // ---- Paths ----

  predicate Links(t: Tree, x: PageId, y: PageId)
  {
    x in t.pages && t.pages[x].Internal? && y in t.pages[x].kids
  }

  /** Each page on the path is a child of the one before. */
  predicate Linked(t: Tree, path: seq<PageId>)
  {
    forall i :: 0 <= i < |path| - 1 ==> Links(t, path[i], path[i + 1])
  }

  /** The ancestors still held reach up to the root or to a node that has room for any separator. */
  predicate Anchored(t: Tree, path: seq<PageId>)
  {
    path != [] && (path[0] == t.root || (|path| > 1 && path[0] in t.pages && t.pages[path[0]].keys == []))
  }

  lemma {:induction false} LinkedMore(t: Tree, path: seq<PageId>, y: PageId)
    requires Linked(t, path) && path != [] && Links(t, path[|path| - 1], y)
    ensures Linked(t, path + [y])
  {
  }

  /** A node that has room for the longest separator is empty. */
  lemma {:induction false} SafeIsEmpty(n: Node)
    requires n.Internal? && Sum(InternalCosts(n.keys)) + SLOT_LEN + 2 + MAX_SORT_KEY_LEN + 4 <= CAPACITY
    ensures n.keys == []
  {
  }

  /** The child `child_for_key` picks covers the key. */
  lemma {:induction false} ChildCovers(t: Tree, s: Shape, p: PageId, k: Key, i: nat)
    requires Inv(t, s, Whole) && p in s.at && p in t.pages && t.pages[p].Internal? && Inside(s.at[p], k) && UpperBound(t.pages[p].keys, k, i)
    ensures i < |t.pages[p].kids| && t.pages[p].kids[i] in s.at
    ensures Inside(s.at[t.pages[p].kids[i]], k) && s.at[t.pages[p].kids[i]].level < s.at[p].level
  {
    LivePage(t, s, Whole, p);
    assert SlotOk(s.at, t.pages[p], s.at[p], i);
    LivePage(t, s, Whole, t.pages[p].kids[i]);
  }

  // ---- What each rewrite of the insert does, as one step ----

  lemma {:induction false} StoredAreSmall(s: Shape, e: Extent, n: Node, k: Key)
    requires n.Leaf? && LeafOk(s, e, n) && SmallEntries(s.all + {k})
    ensures forall j :: 0 <= j < |n.keys| ==> LeafCost(n.keys[j]) <= CAPACITY / 3
  {
    forall j | 0 <= j < |n.keys| ensures LeafCost(n.keys[j]) <= CAPACITY / 3 {
      assert n.keys[j] in n.keys;
    }
  }

  lemma {:induction false} OverflowMeansBig(t: Tree, s: Shape, leaf: PageId, i: nat, k: Key, m: nat)
    requires Settled(t, s) && leaf in s.at && leaf in t.pages && t.pages[leaf].Leaf? && i <= |t.pages[leaf].keys| && t.pages[leaf].keys != []
    requires Balanced(LeafCosts(Inserted(t.pages[leaf].keys, i, k)), m)
    requires var all := Inserted(t.pages[leaf].keys, i, k); var at := LeafPoint(|all|, m);
             Sum(LeafCosts(all[at..])) > CAPACITY || Sum(LeafCosts(all[..at])) > CAPACITY
    ensures !SmallEntries(s.all + {k})
  {
    if SmallEntries(s.all + {k}) {
      LivePage(t, s, Whole, leaf);
      assert FitAt(t, s, leaf);
      StoredAreSmall(s, s.at[leaf], t.pages[leaf], k);
      SmallLeafSplits(t.pages[leaf].keys, i, k, m);
    }
  }

  /** Insert into the leaf, then split it: what the method writes is the composition of the two. */
  lemma {:induction false} LeafSplitShape(t: Tree, s: Shape, leaf: PageId, i: nat, k: Key, at: nat, right: PageId, t': Tree) returns (s': Shape)
    requires Settled(t, s) && leaf in s.at && leaf in t.pages && t.pages[leaf].Leaf? && Inside(s.at[leaf], k) && KeySize(k)
    requires k !in s.all && UpperBound(t.pages[leaf].keys, k, i) && right != NoPage && right !in t.pages
    requires var all := Inserted(t.pages[leaf].keys, i, k);
             && 0 < at < |all| && Sum(LeafCosts(all[at..])) <= CAPACITY && Sum(LeafCosts(all[..at])) <= CAPACITY
             && t' == t.(pages := t.pages[right := Leaf(all[at..], t.pages[leaf].next)][leaf := Leaf(all[..at], right)])
    ensures Inv(t', s', Split(leaf, right)) && AllFit(t', s') && Evolves(s, s')
    ensures s'.all == s.all + {k} && s'.at[right].lo == Rank(Inserted(t.pages[leaf].keys, i, k)[at])
    ensures KeySize(Inserted(t.pages[leaf].keys, i, k)[at])
  {
    var all, e := Inserted(t.pages[leaf].keys, i, k), s.at[leaf];
    var t1, s1 := t.(pages := t.pages[leaf := Leaf(all, t.pages[leaf].next)]), s.(all := s.all + {k});
    LeafInsertKeeps(t, s, leaf, i, k, t1, s1);
    var mid := Rank(all[at]);
    s' := s1.(at := s1.at[right := Extent(mid, e.hi, e.hi, 0)][leaf := Extent(e.lo, mid, e.cov, 0)]);
    Overwritten(t.pages, leaf, t1.pages[leaf], right, Leaf(all[at..], t.pages[leaf].next), Leaf(all[..at], right));
    LeafSplitKeeps(t1, s1, leaf, at, right, t', s');
    EvolvesOn(s, s1, s');
    LivePage(t1, s1, Whole, leaf);
    PagesFit(t, s, t', s', leaf, right);
  }

  /** Writing a page twice is writing it once. */
  lemma {:induction false} Overwritten<V>(m: map<PageId, V>, p: PageId, x: V, q: PageId, b: V, a: V)
    ensures m[p := x][q := b][p := a] == m[q := b][p := a]
  {
  }

  lemma {:induction false} PagesFit(t: Tree, s: Shape, t': Tree, s': Shape, p: PageId, q: PageId)
    requires AllFit(t, s) && p in t'.pages && q in t'.pages && Fits(t'.pages[p]) && Fits(t'.pages[q])
    requires t'.pages == t.pages[q := t'.pages[q]][p := t'.pages[p]] && s'.at.Keys <= s.at.Keys + {p, q}
    ensures AllFit(t', s')
  {
    forall x ensures FitAt(t', s', x) { assert FitAt(t, s, x); }
  }

  /** Pages above a leaf are internal nodes, so rewriting the leaf leaves the path as it was. */
  lemma {:induction false} PathKept(t: Tree, t': Tree, ancestors: seq<PageId>, left: PageId)
    requires Linked(t, ancestors + [left]) && Anchored(t, ancestors + [left]) && t'.root == t.root
    requires forall p :: p in ancestors && p in t.pages ==> p in t'.pages && t'.pages[p] == t.pages[p]
    ensures Linked(t', ancestors + [left]) && Anchored(t', ancestors + [left])
  {
    var path := ancestors + [left];
    forall i | 0 <= i < |path| - 1 ensures Links(t', path[i], path[i + 1]) {
      assert path[i] == ancestors[i];
      assert Links(t, path[i], path[i + 1]);
    }
    if |path| > 1 { assert path[0] == ancestors[0]; }
  }

  /** A path goes down one level at a time, so it never meets a page twice. */
  lemma {:induction false} PathDescends(t: Tree, s: Shape, pend: Pending, path: seq<PageId>, i: nat, j: nat)
    requires Inv(t, s, pend) && Linked(t, path) && i < j < |path| && forall p :: p in path ==> p in s.at
    ensures s.at[path[j]].level < s.at[path[i]].level
    decreases j - i
  {
    assert Links(t, path[j - 1], path[j]);
    LivePage(t, s, pend, path[j - 1]);
    var n := t.pages[path[j - 1]];
    var c :| 0 <= c < |n.kids| && n.kids[c] == path[j];
    assert SlotOk(s.at, n, s.at[path[j - 1]], c);
    if i < j - 1 { PathDescends(t, s, pend, path, i, j - 1); }
  }

  lemma {:induction false} ParentIsNew(t: Tree, s: Shape, pend: Pending, above: seq<PageId>, parent: PageId)
    requires Inv(t, s, pend) && Linked(t, above + [parent]) && (forall p :: p in above ==> p in s.at) && parent in s.at
    ensures parent !in above
  {
    if parent in above {
      var i :| 0 <= i < |above| && above[i] == parent;
      var path := above + [parent];
      assert path[i] == parent == path[|above|];
      PathDescends(t, s, pend, path, i, |above|);
    }
  }

  lemma {:induction false} LeafPathKept(t: Tree, t': Tree, ancestors: seq<PageId>, leaf: PageId, right: PageId)
    requires Linked(t, ancestors + [leaf]) && Anchored(t, ancestors + [leaf]) && t'.root == t.root
    requires leaf in t.pages && t.pages[leaf].Leaf? && right !in t.pages && leaf in t'.pages && right in t'.pages
    requires t'.pages == t.pages[right := t'.pages[right]][leaf := t'.pages[leaf]]
    ensures Linked(t', ancestors + [leaf]) && Anchored(t', ancestors + [leaf])
  {
    forall p | p in ancestors && p in t.pages ensures p in t'.pages && t'.pages[p] == t.pages[p] {
      AncestorsAreInternal(t, ancestors, leaf, p);
    }
    PathKept(t, t', ancestors, leaf);
  }

  lemma {:induction false} AncestorsAreInternal(t: Tree, ancestors: seq<PageId>, left: PageId, p: PageId)
    requires Linked(t, ancestors + [left]) && p in ancestors
    ensures p in t.pages && t.pages[p].Internal?
  {
    var i :| 0 <= i < |ancestors| && ancestors[i] == p;
    var path := ancestors + [left];
    assert path[i] == p && Links(t, path[i], path[i + 1]);
  }

  /** The parent on the path has the split page among its children, at the separator's slot. */
  lemma {:induction false} ParentSlot(t: Tree, s: Shape, pend: Pending, x: PageId, k: Key, i: nat)
    requires Inv(t, s, pend) && pend.Split? && x in s.at && Links(t, x, pend.left)
    requires Rank(k) == s.at[pend.right].lo && UpperBound(t.pages[x].keys, k, i)
    ensures |t.pages[x].kids| == |t.pages[x].keys| + 1 && i < |t.pages[x].kids| && t.pages[x].kids[i] == pend.left
  {
    LivePage(t, s, pend, x);
    var j :| 0 <= j < |t.pages[x].kids| && t.pages[x].kids[j] == pend.left;
    SeparatorSlot(t, s, pend, x, j, k);
    UpperBoundIsUnique(t.pages[x].keys, k, i, j);
  }

  lemma {:induction false} LastLink(t: Tree, above: seq<PageId>, parent: PageId, left: PageId)
    requires Linked(t, above + [parent] + [left])
    ensures Links(t, parent, left) && Linked(t, above + [parent])
  {
    var path := above + [parent] + [left];
    assert path[|above|] == parent && path[|above| + 1] == left;
    assert Links(t, path[|above|], path[|above| + 1]);
    forall i | 0 <= i < |above| ensures Links(t, (above + [parent])[i], (above + [parent])[i + 1]) {
      assert Links(t, path[i], path[i + 1]);
    }
  }

  lemma {:induction false} KidShape(t: Tree, s: Shape, left: PageId, right: PageId, x: PageId, i: nat, sep: Key, t': Tree) returns (s': Shape)
    requires Inv(t, s, Split(left, right)) && AllFit(t, s) && KeySize(sep) && Rank(sep) == s.at[right].lo
    requires x in s.at && x in t.pages && t.pages[x].Internal? && i < |t.pages[x].kids| == |t.pages[x].keys| + 1 && t.pages[x].kids[i] == left
    requires Sum(InternalCosts(t.pages[x].keys)) + InternalCost(sep) <= CAPACITY
    requires t' == t.(pages := t.pages[x := Internal(Inserted(t.pages[x].keys, i, sep), Inserted(t.pages[x].kids, i + 1, right))])
    ensures Settled(t', s') && Evolves(s, s') && s'.all == s.all
  {
    s' := s.(at := s.at[left := s.at[left].(cov := s.at[left].hi)]);
    KidAddedKeeps(t, s, Split(left, right), x, i, sep, t', s');
    InternalSum(t.pages[x].keys, i, sep);
    Overwritten(t.pages, x, t'.pages[x], x, t'.pages[x], t'.pages[x]);
    PagesFit(t, s, t', s', x, x);
  }

  lemma {:induction false} KidSplitShape(t: Tree, s: Shape, left: PageId, right: PageId, x: PageId, i: nat, sep: Key, at: nat, q: PageId, t': Tree)
    returns (s': Shape)
    requires Inv(t, s, Split(left, right)) && AllFit(t, s) && KeySize(sep) && Rank(sep) == s.at[right].lo
    requires x in s.at && x in t.pages && t.pages[x].Internal? && i < |t.pages[x].kids| == |t.pages[x].keys| + 1 && t.pages[x].kids[i] == left
    requires q != NoPage && q !in t.pages
    requires var keys, kids := Inserted(t.pages[x].keys, i, sep), Inserted(t.pages[x].kids, i + 1, right);
             && at < |keys| && Sum(InternalCosts(keys[..at])) <= CAPACITY && Sum(InternalCosts(keys[at + 1..])) <= CAPACITY
             && t' == t.(pages := t.pages[q := Internal(keys[at + 1..], kids[at + 1..])][x := Internal(keys[..at], kids[..at + 1])])
    ensures Inv(t', s', Split(x, q)) && AllFit(t', s') && Evolves(s, s') && s'.all == s.all
    ensures s'.at[q].lo == Rank(Inserted(t.pages[x].keys, i, sep)[at]) && KeySize(Inserted(t.pages[x].keys, i, sep)[at])
  {
    var keys, kids, e := Inserted(t.pages[x].keys, i, sep), Inserted(t.pages[x].kids, i + 1, right), s.at[x];
    var t1 := t.(pages := t.pages[x := Internal(keys, kids)]);
    var s1 := s.(at := s.at[left := s.at[left].(cov := s.at[left].hi)]);
    KidAddedKeeps(t, s, Split(left, right), x, i, sep, t1, s1);
    LivePage(t1, s1, Whole, x);
    var mid := Rank(keys[at]);
    s' := s1.(at := s1.at[q := Extent(mid, e.hi, e.hi, e.level)][x := Extent(e.lo, mid, e.cov, e.level)]);
    Overwritten(t.pages, x, t1.pages[x], q, Internal(keys[at + 1..], kids[at + 1..]), Internal(keys[..at], kids[..at + 1]));
    InternalSplitKeeps(t1, s1, x, at, q, t', s');
    EvolvesOn(s, s1, s');
    PagesFit(t, s, t', s', x, q);
  }

  lemma {:induction false} SplitFits(t: Tree, s: Shape, pend: Pending, x: PageId, i: nat, sep: Key, m: nat)
    requires Inv(t, s, pend) && AllFit(t, s) && KeySize(sep) && x in s.at && x in t.pages && t.pages[x].Internal?
    requires i <= |t.pages[x].keys| && Balanced(InternalCosts(Inserted(t.pages[x].keys, i, sep)), m)
    ensures var keys := Inserted(t.pages[x].keys, i, sep); var at := InternalPoint(|keys|, m);
            Sum(InternalCosts(keys[..at])) <= CAPACITY && Sum(InternalCosts(keys[at + 1..])) <= CAPACITY
  {
    LivePage(t, s, pend, x);
    assert FitAt(t, s, x);
    InternalSplits(t.pages[x].keys, i, sep, m);
  }

  /** A parent that splits is not a safe node, so it is the root if nothing is held above it. */
  lemma {:induction false} SplitPath(t: Tree, t': Tree, above: seq<PageId>, parent: PageId, left: PageId)
    requires Linked(t, above + [parent] + [left]) && Anchored(t, above + [parent] + [left]) && t'.root == t.root
    requires parent in t.pages && t.pages[parent].keys != [] && parent !in above
    requires forall p :: p in above && p in t.pages ==> p in t'.pages && t'.pages[p] == t.pages[p]
    ensures Linked(t', above + [parent]) && Anchored(t', above + [parent])
  {
    LastLink(t, above, parent, left);
    var path := above + [parent];
    assert (above + [parent] + [left])[0] == path[0];
    PathKept(t, t', above, parent);
  }

  lemma {:induction false} StillLive(s: Shape, s': Shape, pages: seq<PageId>)
    requires Evolves(s, s') && forall p :: p in pages ==> p in s.at
    ensures forall p :: p in pages ==> p in s'.at
  {
    forall p | p in pages ensures p in s'.at { assert Stays(s, s', p); }
  }

  // ---- The index ----

  class BTreeIndex {
    var t: Tree
    ghost var s: Shape

    constructor (page: PageId)
      requires page != NoPage
      ensures Settled(t, s) && s.all == {}
    {
      t := Tree(map[page := Leaf([], NoPage)], page);
      s := Shape(map[page := Extent(0.0, 1.0, 1.0, 0)], {});
    }

    /** Some page id the tree does not use. */
    method NewPage() returns (q: PageId)
      ensures q != NoPage && q !in t.pages
    {
      var next: nat, left := 1, t.pages.Keys;
      while left != {}
        invariant left <= t.pages.Keys && forall p :: p in t.pages && p !in left && p.Page? ==> p.id < next
        decreases |left|
      {
        var p :| p in left;
        if p.Page? && p.id >= next { next := p.id + 1; }
        left := left - {p};
      }
      q := Page(next);
    }

    /** `descend_for_insert`: keep only the ancestors a split below could reach. */
    method DescendForInsert(k: Key, cost: nat) returns (ancestors: seq<PageId>, leaf: PageId)
      requires Settled(t, s) && KeySize(k)
      ensures leaf in s.at && leaf in t.pages && t.pages[leaf].Leaf? && Inside(s.at[leaf], k)
      ensures forall p :: p in ancestors ==> p in s.at
      ensures Linked(t, ancestors + [leaf])
      ensures Sum(Costs(t.pages[leaf])) + cost > CAPACITY ==> Anchored(t, ancestors + [leaf])
    {
      ancestors := [];
      leaf := t.root;
      LivePage(t, s, Whole, leaf);
      while t.pages[leaf].Internal?
        invariant leaf in s.at && leaf in t.pages && Inside(s.at[leaf], k)
        invariant forall p :: p in ancestors ==> p in s.at
        invariant Linked(t, ancestors + [leaf]) && Anchored(t, ancestors + [leaf])
        decreases s.at[leaf].level
      {
        var n := t.pages[leaf];
        LivePage(t, s, Whole, leaf);
        var i := FindUpperBound(n.keys, k);
        ChildCovers(t, s, leaf, k, i);
        var path := ancestors + [leaf];
        if Sum(InternalCosts(n.keys)) + SLOT_LEN + 2 + MAX_SORT_KEY_LEN + 4 <= CAPACITY {
          SafeIsEmpty(n);
          path := [leaf];
        }
        LinkedMore(t, path, n.kids[i]);
        ancestors, leaf := path, n.kids[i];
        LivePage(t, s, Whole, leaf);
      }
      if Sum(Costs(t.pages[leaf])) + cost <= CAPACITY { ancestors := []; }
    }

    /** `BTreeIndex::insert` of a new (key, rid) pair. */
    method Insert(key: Key, rid: Rid) returns (o: Outcome)
      requires Settled(t, s) && SortKey(key, rid) !in s.all
      modifies this
      ensures Settled(t, s) && Evolves(old(s), s)
      ensures o == TooLarge <==> |key| > MAX_KEY_LEN
      ensures s.all == if o == Done then old(s.all) + {SortKey(key, rid)} else old(s.all)
      ensures o != Done ==> Untouched(old(t), old(s), t, s)
      ensures |key| <= MAX_KEY_LEN && SmallEntries(old(s.all) + {SortKey(key, rid)}) ==> o == Done
    {
      if |key| > MAX_KEY_LEN { return TooLarge; }
      var k := SortKey(key, rid);
      var ancestors, leaf := DescendForInsert(k, LeafCost(k));
      var n := t.pages[leaf];
      LivePage(t, s, Whole, leaf);
      var i := FindUpperBound(n.keys, k);
      if Sum(LeafCosts(n.keys)) + LeafCost(k) <= CAPACITY {
        PutInLeaf(leaf, i, k);
        return Done;
      }
      var right, sep;
      o, right, sep := SplitLeaf(leaf, i, k, ancestors);
      if o == Done {
        ghost var s1 := s;
        StillLive(old(s), s, ancestors);
        PushUp(ancestors, leaf, right, sep);
        EvolvesOn(old(s), s1, s);
      }
    }

    method PutInLeaf(leaf: PageId, i: nat, k: Key)
      requires Settled(t, s) && leaf in s.at && leaf in t.pages && t.pages[leaf].Leaf? && Inside(s.at[leaf], k) && KeySize(k)
      requires k !in s.all && UpperBound(t.pages[leaf].keys, k, i) && Sum(LeafCosts(t.pages[leaf].keys)) + LeafCost(k) <= CAPACITY
      modifies this
      ensures Settled(t, s) && Evolves(old(s), s) && s.all == old(s.all) + {k}
    {
      ghost var t0, s0 := t, s;
      t := t.(pages := t.pages[leaf := Leaf(Inserted(t.pages[leaf].keys, i, k), t.pages[leaf].next)]);
      s := s.(all := s.all + {k});
      LeafInsertKeeps(t0, s0, leaf, i, k, t, s);
      LeafSum(t0.pages[leaf].keys, i, k);
      Overwritten(t0.pages, leaf, t.pages[leaf], leaf, t.pages[leaf], t.pages[leaf]);
      PagesFit(t0, s0, t, s, leaf, leaf);
    }

    /** Split an overfull leaf in two, unless a half would not fit; the path above stays as it was. */
    method SplitLeaf(leaf: PageId, i: nat, k: Key, ghost ancestors: seq<PageId>) returns (o: Outcome, right: PageId, sep: Key)
      requires Settled(t, s) && leaf in s.at && leaf in t.pages && t.pages[leaf].Leaf? && Inside(s.at[leaf], k) && KeySize(k)
      requires k !in s.all && UpperBound(t.pages[leaf].keys, k, i) && Sum(LeafCosts(t.pages[leaf].keys)) + LeafCost(k) > CAPACITY
      requires Linked(t, ancestors + [leaf]) && Anchored(t, ancestors + [leaf])
      modifies this
      ensures o != TooLarge && Evolves(old(s), s)
      ensures o == Overflow ==> Settled(t, s) && Untouched(old(t), old(s), t, s) && !SmallEntries(s.all + {k})
      ensures o == Done ==> Inv(t, s, Split(leaf, right)) && AllFit(t, s) && s.all == old(s.all) + {k}
      ensures o == Done ==> KeySize(sep) && Rank(sep) == s.at[right].lo
      ensures o == Done ==> Linked(t, ancestors + [leaf]) && Anchored(t, ancestors + [leaf])
    {
      var n := t.pages[leaf];
      OverfullLeafHasTwo(n.keys, k);
      var all := Inserted(n.keys, i, k);
      var m := BalancedPoint(LeafCosts(all));
      var at := LeafPoint(|all|, m);
      right := NewPage();
      sep := all[at];
      if Sum(LeafCosts(all[at..])) > CAPACITY || Sum(LeafCosts(all[..at])) > CAPACITY {
        OverflowMeansBig(t, s, leaf, i, k, m);
        AbandonPage(right, if Sum(LeafCosts(all[at..])) > CAPACITY then Leaf([], NoPage) else Leaf(all[at..], n.next));
        return Overflow, right, sep;
      }
      ghost var t0, s0 := t, s;
      t := t.(pages := t.pages[right := Leaf(all[at..], n.next)][leaf := Leaf(all[..at], right)]);
      s := LeafSplitShape(t0, s0, leaf, i, k, at, right, t);
      LeafPathKept(t0, t, ancestors, leaf, right);
      return Done, right, sep;
    }

    /** A page allocated for a split that failed: no other page refers to it. */
    method AbandonPage(q: PageId, n: Node)
      requires Settled(t, s) && q !in t.pages
      modifies this`t
      ensures Settled(t, s) && Untouched(old(t), s, t, s)
    {
      ghost var t0 := t;
      t := t.(pages := t.pages[q := n]);
      forall p ensures PageIn(t, s, p) { assert PageIn(t0, s, p); }
      forall p ensures FitAt(t, s, p) { assert FitAt(t0, s, p) && PageIn(t0, s, p); }
    }

    /** Give the parent the new separator, splitting the parent if it has no room. */
    method AddToParent(ghost above: seq<PageId>, parent: PageId, left: PageId, right: PageId, sep: Key)
      returns (done: bool, left': PageId, right': PageId, sep': Key)
      requires Inv(t, s, Split(left, right)) && AllFit(t, s) && KeySize(sep) && Rank(sep) == s.at[right].lo
      requires Linked(t, above + [parent] + [left]) && Anchored(t, above + [parent] + [left]) && parent in s.at && parent !in above
      modifies this
      ensures Evolves(old(s), s) && s.all == old(s.all)
      ensures done ==> Settled(t, s)
      ensures !done ==> Inv(t, s, Split(left', right')) && AllFit(t, s) && KeySize(sep') && Rank(sep') == s.at[right'].lo
      ensures !done ==> left' == parent && Linked(t, above + [left']) && Anchored(t, above + [left'])
    {
      LastLink(t, above, parent, left);
      LivePage(t, s, Split(left, right), parent);
      var n := t.pages[parent];
      var i := FindUpperBound(n.keys, sep);
      ParentSlot(t, s, Split(left, right), parent, sep, i);
      done, left', right', sep' := Sum(InternalCosts(n.keys)) + InternalCost(sep) <= CAPACITY, parent, NoPage, sep;
      if done {
        ghost var t0, s0 := t, s;
        t := t.(pages := t.pages[parent := Internal(Inserted(n.keys, i, sep), Inserted(n.kids, i + 1, right))]);
        s := KidShape(t0, s0, left, right, parent, i, sep, t);
      } else {
        right', sep' := SplitParent(above, parent, left, right, sep, i);
      }
    }

    method SplitParent(ghost above: seq<PageId>, parent: PageId, left: PageId, right: PageId, sep: Key, i: nat)
      returns (right': PageId, sep': Key)
      requires Inv(t, s, Split(left, right)) && AllFit(t, s) && KeySize(sep) && Rank(sep) == s.at[right].lo
      requires Linked(t, above + [parent] + [left]) && Anchored(t, above + [parent] + [left]) && parent in s.at && parent !in above
      requires parent in t.pages && t.pages[parent].Internal? && i < |t.pages[parent].kids| == |t.pages[parent].keys| + 1
      requires t.pages[parent].kids[i] == left && Sum(InternalCosts(t.pages[parent].keys)) + InternalCost(sep) > CAPACITY
      modifies this
      ensures Evolves(old(s), s) && s.all == old(s.all)
      ensures Inv(t, s, Split(parent, right')) && AllFit(t, s) && KeySize(sep') && Rank(sep') == s.at[right'].lo
      ensures Linked(t, above + [parent]) && Anchored(t, above + [parent])
    {
      var n := t.pages[parent];
      var keys, kids := Inserted(n.keys, i, sep), Inserted(n.kids, i + 1, right);
      var m := BalancedPoint(InternalCosts(keys));
      var at := InternalPoint(|keys|, m);
      SplitFits(t, s, Split(left, right), parent, i, sep, m);
      right' := NewPage();
      sep' := keys[at];
      ghost var t0, s0 := t, s;
      t := t.(pages := t.pages[right' := Internal(keys[at + 1..], kids[at + 1..])][parent := Internal(keys[..at], kids[..at + 1])]);
      s := KidSplitShape(t0, s0, left, right, parent, i, sep, at, right', t);
      SplitPath(t0, t, above, parent, left);
    }

    /** The root itself has split: a new root over the two halves. */
    method GrowRoot(left: PageId, right: PageId, sep: Key)
      requires Inv(t, s, Split(left, right)) && AllFit(t, s) && KeySize(sep) && Rank(sep) == s.at[right].lo && left == t.root
      modifies this
      ensures Settled(t, s) && Evolves(old(s), s) && s.all == old(s.all)
    {
      var x := NewPage();
      ghost var t0, s0 := t, s;
      t := Tree(t.pages[x := Internal([sep], [t.root, right])], x);
      s := s.(at := s.at[left := s.at[left].(cov := s.at[left].hi)][x := Extent(0.0, 1.0, 1.0, s.at[left].level + 1)]);
      RootAddedKeeps(t0, s0, right, sep, x, t, s);
      OneEntryFits(sep, [t0.root, right]);
      Overwritten(t0.pages, x, t.pages[x], x, t.pages[x], t.pages[x]);
      PagesFit(t0, s0, t, s, x, x);
    }

    /** The loop that carries the right half's separator upward. */
    method PushUp(path: seq<PageId>, left0: PageId, right0: PageId, sep0: Key)
      requires Inv(t, s, Split(left0, right0)) && AllFit(t, s) && KeySize(sep0) && Rank(sep0) == s.at[right0].lo
      requires Linked(t, path + [left0]) && Anchored(t, path + [left0]) && forall p :: p in path ==> p in s.at
      modifies this
      ensures Settled(t, s) && Evolves(old(s), s) && s.all == old(s.all)
    {
      var ancestors, left, right, sep := path, left0, right0, sep0;
      while ancestors != []
        invariant Inv(t, s, Split(left, right)) && AllFit(t, s) && KeySize(sep) && Rank(sep) == s.at[right].lo
        invariant Linked(t, ancestors + [left]) && Anchored(t, ancestors + [left]) && forall p :: p in ancestors ==> p in s.at
        invariant Evolves(old(s), s) && s.all == old(s.all)
        decreases |ancestors|
      {
        var parent := ancestors[|ancestors| - 1];
        assert ancestors == ancestors[..|ancestors| - 1] + [parent];
        ancestors := ancestors[..|ancestors| - 1];
        LastLink(t, ancestors, parent, left);
        ParentIsNew(t, s, Split(left, right), ancestors, parent);
        ghost var s1 := s;
        var done;
        done, left, right, sep := AddToParent(ancestors, parent, left, right, sep);
        EvolvesOn(old(s), s1, s);
        if done { return; }
        StillLive(s1, s, ancestors);
      }
      ghost var s1 := s;
      GrowRoot(left, right, sep);
      EvolvesOn(old(s), s1, s);
    }
  }

  /** Every entry costs at most a third of a node. */
  predicate SmallEntries(all: set<Key>)
  {
    forall k :: k in all ==> LeafCost(k) <= CAPACITY / 3
  }

  /** Same shape, same root, and every page of the tree as it was. */
  ghost predicate Untouched(t: Tree, s: Shape, t': Tree, s': Shape)
  {
    s' == s && t'.root == t.root && forall p :: p in s.at && p in t.pages ==> p in t'.pages && t'.pages[p] == t.pages[p]
  }
}
