/** `check_invariants`, the index's own check of its structure, and that it passes on every tree that
    inserts produce: sorted nodes within inherited bounds, leaves at one depth, single parents, and a
    leaf chain equal to the key-order traversal. */
module TreeCheck {
  import opened KeyOrder
  import opened TreeShape
  import opened TreeReaders

  datatype Progress = Progress(visited: set<PageId>, depths: set<nat>, leaves: seq<PageId>)

  datatype Verdict = Fail | Pass(at: Progress)

  predicate Increasing(keys: seq<Key>)
  {
    forall i :: 0 <= i < |keys| - 1 ==> Less(keys[i], keys[i + 1])
  }

  predicate Bounded(keys: seq<Key>, low: Bound, high: Bound)
  {
    forall i :: 0 <= i < |keys| ==> (low.At? ==> !Less(keys[i], low.key)) && (high.At? ==> Less(keys[i], high.key))
  }

  function KidLow(n: Node, low: Bound, i: nat): Bound
    requires i <= |n.keys|
  {
    if i == 0 then low else At(n.keys[i - 1])
  }

  function KidHigh(n: Node, high: Bound, i: nat): Bound
    requires i <= |n.keys|
  {
    if i == |n.keys| then high else At(n.keys[i])
  }

  /** `check_node`. */
  function CheckNode(t: Tree, p: PageId, low: Bound, high: Bound, depth: nat, st: Progress): (r: Verdict)
    ensures r.Pass? ==> st.visited <= r.at.visited
    decreases |t.pages.Keys - st.visited|, 0
  {
    if p in st.visited || p !in t.pages then Fail else
      var n := t.pages[p];
      Visiting(t.pages.Keys, st.visited, p);
      var seen := st.(visited := st.visited + {p});
      if !Increasing(n.keys) || !Bounded(n.keys, low, high) then Fail
      else if n.Leaf? then
        if seen.depths <= {depth} then Pass(seen.(depths := {depth}, leaves := seen.leaves + [p])) else Fail
      else if |n.kids| != |n.keys| + 1 then Fail
      else CheckKids(t, n, 0, low, high, depth + 1, seen)
  }

  function CheckKids(t: Tree, n: Node, i: nat, low: Bound, high: Bound, depth: nat, st: Progress): (r: Verdict)
    requires n.Internal? && |n.kids| == |n.keys| + 1 && i <= |n.kids|
    ensures r.Pass? ==> st.visited <= r.at.visited
    decreases |t.pages.Keys - st.visited|, |n.kids| - i + 1
  {
    if i == |n.kids| then Pass(st) else
      var r := CheckNode(t, n.kids[i], KidLow(n, low, i), KidHigh(n, high, i), depth, st);
      if r.Fail? then Fail else
        Visited(t.pages.Keys, st.visited, r.at.visited);
        CheckKids(t, n, i + 1, low, high, depth, r.at)
  }

  lemma {:induction false} Visiting(pages: set<PageId>, visited: set<PageId>, p: PageId)
    requires p in pages && p !in visited
    ensures |pages - (visited + {p})| < |pages - visited|
  {
    assert pages - visited == (pages - (visited + {p})) + {p};
  }

  lemma {:induction false} Visited(pages: set<PageId>, visited: set<PageId>, more: set<PageId>)
    requires visited <= more
    ensures |pages - more| <= |pages - visited|
  {
    Smaller(pages - more, pages - visited);
  }

  lemma {:induction false} Smaller(a: set<PageId>, b: set<PageId>)
    requires a <= b
    ensures |a| <= |b|
  {
    assert b == a + (b - a);
  }

  // ---- Why it passes ----

  ghost predicate LowIs(low: Bound, x: real)
  {
    if low.At? then Rank(low.key) == x else x == 0.0
  }

  ghost predicate HighIs(high: Bound, x: real)
  {
    if high.At? then Rank(high.key) == x else x == 1.0
  }

  /** The leaves so far are linked left to right and end exactly where `upto` begins. */
  ghost predicate LeavesTo(t: Tree, s: Shape, leaves: seq<PageId>, upto: real)
  {
    && (forall i :: 0 <= i < |leaves| ==> leaves[i] in s.at && leaves[i] in t.pages && t.pages[leaves[i]].Leaf? && s.at[leaves[i]].level == 0)
    && (if leaves == [] then upto == 0.0
        else s.at[leaves[0]].lo == 0.0 && s.at[leaves[|leaves| - 1]].hi == upto)
    && forall i :: 0 <= i < |leaves| - 1 ==> t.pages[leaves[i]].next == leaves[i + 1]
  }

  /** Everything visited at this level or below lies left of `x`. */
  ghost predicate VisitedLeftOf(s: Shape, visited: set<PageId>, level: nat, x: real)
  {
    forall p :: p in visited ==> LeftOf(s, p, level, x)
  }

  ghost predicate LeftOf(s: Shape, p: PageId, level: nat, x: real)
  {
    p in s.at && (level < s.at[p].level || s.at[p].hi <= x)
  }

  lemma {:induction false} NodeLooksRight(keys: seq<Key>, e: Extent, low: Bound, high: Bound)
    requires Sorted(keys) && Within(keys, e.lo, e.hi) && LowIs(low, e.lo) && HighIs(high, e.hi)
    ensures Increasing(keys) && Bounded(keys, low, high)
  {
    forall i | 0 <= i < |keys| - 1 ensures Less(keys[i], keys[i + 1]) { LessIsRank(keys[i], keys[i + 1]); }
    forall i | 0 <= i < |keys|
      ensures (low.At? ==> !Less(keys[i], low.key)) && (high.At? ==> Less(keys[i], high.key))
    {
      if low.At? { LessIsRank(keys[i], low.key); }
      if high.At? { LessIsRank(keys[i], high.key); }
    }
  }

  /** A leaf whose lower bound is where the chain ends is the chain's next leaf. */
  lemma {:induction false} LeafExtends(t: Tree, s: Shape, leaves: seq<PageId>, p: PageId)
    requires Inv(t, s, Whole) && p in s.at && p in t.pages && t.pages[p].Leaf? && s.at[p].level == 0 && LeavesTo(t, s, leaves, s.at[p].lo)
    ensures LeavesTo(t, s, leaves + [p], s.at[p].hi)
  {
    LivePage(t, s, Whole, p);
    var more := leaves + [p];
    if leaves != [] {
      var last := leaves[|leaves| - 1];
      LivePage(t, s, Whole, last);
      var next := t.pages[last].next;
      assert PairOk(s.at, next, p);
      LivePage(t, s, Whole, next);
    }
    forall i | 0 <= i < |more| - 1 ensures t.pages[more[i]].next == more[i + 1] {
      if i == |leaves| - 1 { assert more[i] == leaves[i]; } else { assert more[i + 1] == leaves[i + 1]; }
    }
  }

  /** Everything newly visited is at this level or below and ends by `x`. */
  ghost predicate NewlyVisited(s: Shape, before: set<PageId>, after: set<PageId>, level: nat, x: real)
  {
    forall p :: p in after ==> p in before || Under(s, p, level, x)
  }

  ghost predicate Under(s: Shape, p: PageId, level: nat, x: real)
  {
    p in s.at && s.at[p].level <= level && s.at[p].hi <= x
  }

  lemma {:induction false} CheckNodePasses(t: Tree, s: Shape, p: PageId, low: Bound, high: Bound, depth: nat, st: Progress)
    requires Inv(t, s, Whole) && p in s.at && LowIs(low, s.at[p].lo) && HighIs(high, s.at[p].hi)
    requires VisitedLeftOf(s, st.visited, s.at[p].level, s.at[p].lo) && LeavesTo(t, s, st.leaves, s.at[p].lo)
    requires st.depths <= {depth + s.at[p].level}
    ensures var r := CheckNode(t, p, low, high, depth, st);
            && r.Pass? && r.at.depths <= {depth + s.at[p].level} && LeavesTo(t, s, r.at.leaves, s.at[p].hi)
            && NewlyVisited(s, st.visited, r.at.visited, s.at[p].level, s.at[p].hi)
    decreases s.at[p].level, 0
  {
    LivePage(t, s, Whole, p);
    var n, e := t.pages[p], s.at[p];
    assert p !in st.visited;
    NodeLooksRight(n.keys, e, low, high);
    var seen := st.(visited := st.visited + {p});
    if n.Leaf? {
      LeafExtends(t, s, st.leaves, p);
    } else {
      forall x | x in seen.visited ensures LeftOf(s, x, e.level - 1, e.lo) {
        if x != p { assert LeftOf(s, x, e.level, e.lo); }
      }
      CheckKidsPass(t, s, p, 0, low, high, depth + 1, seen);
    }
  }

  /** Where the children from `i` on begin. */
  ghost function KidsFrom(n: Node, e: Extent, i: nat): real
    requires i <= |n.keys| + 1
  {
    if i == |n.keys| + 1 then e.hi else SlotLo(n, e, i)
  }

  lemma {:induction false} CheckKidsPass(t: Tree, s: Shape, p: PageId, i: nat, low: Bound, high: Bound, depth: nat, st: Progress)
    requires Inv(t, s, Whole) && p in s.at && p in t.pages && t.pages[p].Internal? && PageOk(t, s, p) && i <= |t.pages[p].kids|
    requires LowIs(low, s.at[p].lo) && HighIs(high, s.at[p].hi)
    requires VisitedLeftOf(s, st.visited, s.at[p].level - 1, KidsFrom(t.pages[p], s.at[p], i))
    requires LeavesTo(t, s, st.leaves, KidsFrom(t.pages[p], s.at[p], i)) && st.depths <= {depth + s.at[p].level - 1}
    ensures var r := CheckKids(t, t.pages[p], i, low, high, depth, st);
            && r.Pass? && r.at.depths <= {depth + s.at[p].level - 1} && LeavesTo(t, s, r.at.leaves, s.at[p].hi)
            && NewlyVisited(s, st.visited, r.at.visited, s.at[p].level, s.at[p].hi)
    decreases s.at[p].level - 1, |t.pages[p].kids| - i + 1
  {
    var n, e := t.pages[p], s.at[p];
    if i < |n.kids| {
      assert SlotOk(s.at, n, e, i);
      SlotInside(s, e, n, i);
      var kid := n.kids[i];
      LivePage(t, s, Whole, kid);
      CheckNodePasses(t, s, kid, KidLow(n, low, i), KidHigh(n, high, i), depth, st);
      var r := CheckNode(t, kid, KidLow(n, low, i), KidHigh(n, high, i), depth, st);
      var x, y := KidsFrom(n, e, i), KidsFrom(n, e, i + 1);
      assert y == s.at[kid].hi;
      forall q | q in r.at.visited ensures LeftOf(s, q, e.level - 1, y) {
        if q in st.visited { assert LeftOf(s, q, e.level - 1, x); } else { assert Under(s, q, e.level - 1, y); }
      }
      CheckKidsPass(t, s, p, i + 1, low, high, depth, r.at);
      forall q | q in CheckKids(t, n, i, low, high, depth, st).at.visited ensures q in st.visited || Under(s, q, e.level, e.hi) {
        if q in r.at.visited && q !in st.visited { assert Under(s, q, e.level - 1, y); }
      }
    }
  }

  // ---- What passing means, for any tree ----

  /** The entries of some leaves, left to right. */
  function Entries(t: Tree, leaves: seq<PageId>): seq<Key>
  {
    if leaves == [] then [] else
      Entries(t, leaves[..|leaves| - 1]) + (if leaves[|leaves| - 1] in t.pages then t.pages[leaves[|leaves| - 1]].keys else [])
  }

  lemma {:induction false} EntriesOfBoth(t: Tree, a: seq<PageId>, b: seq<PageId>)
    ensures Entries(t, a + b) == Entries(t, a) + Entries(t, b)
    decreases |b|
  {
    if b == [] {
      assert a + b == a;
    } else {
      assert (a + b)[..|a + b| - 1] == a + b[..|b| - 1];
      EntriesOfBoth(t, a, b[..|b| - 1]);
    }
  }

  /** All keys are at or above `low` and below `high`, by rank. */
  ghost predicate Between(keys: seq<Key>, low: Bound, high: Bound)
  {
    forall i :: 0 <= i < |keys| ==> InBounds(keys[i], low, high)
  }

  ghost predicate InBounds(k: Key, low: Bound, high: Bound)
  {
    (low.At? ==> Rank(low.key) <= Rank(k)) && (high.At? ==> Rank(k) < Rank(high.key))
  }

  lemma {:induction false} CheckedNode(keys: seq<Key>, low: Bound, high: Bound)
    requires Increasing(keys) && Bounded(keys, low, high)
    ensures Sorted(keys) && Between(keys, low, high)
  {
    forall i | 0 <= i < |keys| ensures InBounds(keys[i], low, high) {
      if low.At? { LessIsRank(keys[i], low.key); }
      if high.At? { LessIsRank(keys[i], high.key); }
    }
    IncreasingIsSorted(keys);
  }

  lemma {:induction false} IncreasingIsSorted(keys: seq<Key>)
    requires Increasing(keys)
    ensures Sorted(keys)
    decreases |keys|
  {
    if keys != [] {
      var n := |keys| - 1;
      var front := keys[..n];
      IncreasingIsSorted(front);
      forall i, j | 0 <= i < j < |keys| ensures Rank(keys[i]) < Rank(keys[j]) {
        if j < n {
          assert front[i] == keys[i] && front[j] == keys[j];
        } else {
          LessIsRank(keys[n - 1], keys[n]);
          if i < n - 1 { assert front[i] == keys[i] && front[n - 1] == keys[n - 1]; }
        }
      }
    }
  }

  /** The leaves a check adds to its list, if it passes. */
  ghost predicate AddsSorted(t: Tree, st: Progress, r: Verdict, low: Bound, high: Bound)
  {
    r.Pass? ==>
      && st.leaves <= r.at.leaves
      && Sorted(Entries(t, r.at.leaves[|st.leaves|..])) && Between(Entries(t, r.at.leaves[|st.leaves|..]), low, high)
  }

  /** If the check passes, the entries met in traversal order are strictly increasing and within the bounds. */
  lemma {:induction false} PassMeansSorted(t: Tree, p: PageId, low: Bound, high: Bound, depth: nat, st: Progress)
    ensures AddsSorted(t, st, CheckNode(t, p, low, high, depth, st), low, high)
    decreases |t.pages.Keys - st.visited|, 0
  {
    var r := CheckNode(t, p, low, high, depth, st);
    if r.Pass? {
      var n := t.pages[p];
      CheckedNode(n.keys, low, high);
      Visiting(t.pages.Keys, st.visited, p);
      if n.Leaf? {
        assert r.at.leaves == st.leaves + [p] && r.at.leaves[|st.leaves|..] == [p];
        assert Entries(t, [p]) == n.keys by { assert [p][..0] == []; }
      } else {
        KidsMeanSorted(t, n, 0, low, high, depth + 1, st.(visited := st.visited + {p}));
      }
    }
  }

  lemma {:induction false} KidsMeanSorted(t: Tree, n: Node, i: nat, low: Bound, high: Bound, depth: nat, st: Progress)
    requires n.Internal? && |n.kids| == |n.keys| + 1 && i <= |n.kids| && Sorted(n.keys) && Between(n.keys, low, high)
    ensures i == |n.kids| ==> CheckKids(t, n, i, low, high, depth, st) == Pass(st)
    ensures i < |n.kids| ==> AddsSorted(t, st, CheckKids(t, n, i, low, high, depth, st), KidLow(n, low, i), high)
    decreases |t.pages.Keys - st.visited|, |n.kids| - i + 1
  {
    if i < |n.kids| {
      var r := CheckNode(t, n.kids[i], KidLow(n, low, i), KidHigh(n, high, i), depth, st);
      PassMeansSorted(t, n.kids[i], KidLow(n, low, i), KidHigh(n, high, i), depth, st);
      if r.Pass? {
        Visited(t.pages.Keys, st.visited, r.at.visited);
        KidsMeanSorted(t, n, i + 1, low, high, depth, r.at);
        var all := CheckKids(t, n, i + 1, low, high, depth, r.at);
        if all.Pass? { JoinSorted(t, n, i, low, high, st.leaves, r.at.leaves, all.at.leaves); }
      }
    }
  }

  /** The entries under child `i` and those under the later children, separated by separator `i`. */
  lemma {:induction false} JoinSorted(t: Tree, n: Node, i: nat, low: Bound, high: Bound, a: seq<PageId>, b: seq<PageId>, c: seq<PageId>)
    requires n.Internal? && |n.kids| == |n.keys| + 1 && i < |n.kids| && Sorted(n.keys) && Between(n.keys, low, high) && a <= b <= c
    requires Sorted(Entries(t, b[|a|..])) && Between(Entries(t, b[|a|..]), KidLow(n, low, i), KidHigh(n, high, i))
    requires if i + 1 == |n.kids| then c == b else Sorted(Entries(t, c[|b|..])) && Between(Entries(t, c[|b|..]), KidLow(n, low, i + 1), high)
    ensures a <= c && Sorted(Entries(t, c[|a|..])) && Between(Entries(t, c[|a|..]), KidLow(n, low, i), high)
  {
    var x, y := Entries(t, b[|a|..]), Entries(t, c[|b|..]);
    assert c[|a|..] == b[|a|..] + c[|b|..];
    EntriesOfBoth(t, b[|a|..], c[|b|..]);
    forall k | 0 <= k < |x| ensures InBounds(x[k], KidLow(n, low, i), high) {
      assert InBounds(x[k], KidLow(n, low, i), KidHigh(n, high, i));
      if i < |n.keys| { assert InBounds(n.keys[i], low, high); }
    }
    forall k | 0 <= k < |y| ensures InBounds(y[k], KidLow(n, low, i), high) {
      assert InBounds(y[k], KidLow(n, low, i + 1), high) && InBounds(n.keys[i], low, high);
      if 0 < i { assert Rank(n.keys[i - 1]) < Rank(n.keys[i]); }
    }
    forall k, m | 0 <= k < |x| && 0 <= m < |y| ensures Rank(x[k]) < Rank(y[m]) {
      assert InBounds(x[k], KidLow(n, low, i), KidHigh(n, high, i));
      assert InBounds(y[m], KidLow(n, low, i + 1), high);
    }
  }

  // ---- The whole check ----

  /** Following the links from the leftmost leaf. */
  ghost predicate IsChain(t: Tree, s: Shape, via: seq<PageId>)
  {
    via != [] && LeavesTo(t, s, via, 1.0)
  }

  lemma {:induction false} SameChain(t: Tree, s: Shape, a: seq<PageId>, b: seq<PageId>, n: nat)
    requires Inv(t, s, Whole) && IsChain(t, s, a) && IsChain(t, s, b) && n <= |a| && n <= |b|
    ensures a[..n] == b[..n]
    decreases n
  {
    if n > 0 {
      SameChain(t, s, a, b, n - 1);
      if n == 1 {
        LivePage(t, s, Whole, a[0]);
        LivePage(t, s, Whole, b[0]);
        assert PairOk(s.at, a[0], b[0]);
      } else {
        assert a[..n - 1][n - 2] == b[..n - 1][n - 2];
        assert t.pages[a[n - 2]].next == a[n - 1] && t.pages[b[n - 2]].next == b[n - 1];
      }
      assert a[..n] == a[..n - 1] + [a[n - 1]] && b[..n] == b[..n - 1] + [b[n - 1]];
    }
  }

  lemma {:induction false} ChainsAgree(t: Tree, s: Shape, a: seq<PageId>, b: seq<PageId>)
    requires Inv(t, s, Whole) && IsChain(t, s, a) && IsChain(t, s, b)
    ensures a == b
  {
    if |a| < |b| {
      ShorterIsWhole(t, s, a, b);
    } else if |b| < |a| {
      ShorterIsWhole(t, s, b, a);
    }
    SameChain(t, s, a, b, |a|);
    assert a[..|a|] == a && b[..|b|] == b;
  }

  lemma {:induction false} ShorterIsWhole(t: Tree, s: Shape, a: seq<PageId>, b: seq<PageId>)
    requires Inv(t, s, Whole) && IsChain(t, s, a) && IsChain(t, s, b) && |a| <= |b|
    ensures |a| == |b|
  {
    SameChain(t, s, a, b, |a|);
    var last := a[|a| - 1];
    assert a[..|a|][|a| - 1] == b[..|a|][|a| - 1];
    LivePage(t, s, Whole, last);
    if |a| < |b| { assert t.pages[b[|a| - 1]].next == b[|a|]; LivePage(t, s, Whole, b[|a|]); }
  }

  /** `check_invariants`: it passes on every settled tree. */
  method CheckInvariants(t: Tree, ghost s: Shape) returns (ok: bool)
    requires Settled(t, s)
    ensures ok
  {
    var r := CheckNode(t, t.root, Unbounded, Unbounded, 0, Progress({}, {}, []));
    LivePage(t, s, Whole, t.root);
    CheckNodePasses(t, s, t.root, Unbounded, Unbounded, 0, Progress({}, {}, []));
    assert Readable(t, s);
    assert Schedule([t], [s]) by { assert Evolves(s, s); }
    var leaf, _ := LeftmostLeaf([t], [s], t.root);
    LivePage(t, s, Whole, leaf);
    var via := [leaf];
    while t.pages[leaf].next != NoPage
      invariant leaf in s.at && leaf in t.pages && t.pages[leaf].Leaf? && s.at[leaf].level == 0
      invariant via != [] && LeavesTo(t, s, via, s.at[leaf].hi)
      decreases Ahead(s, s.at[leaf].lo)
    {
      LivePage(t, s, Whole, leaf);
      var next := t.pages[leaf].next;
      LivePage(t, s, Whole, next);
      LeafExtends(t, s, via, next);
      AheadShrinks(s, leaf, next);
      via, leaf := via + [next], next;
    }
    LivePage(t, s, Whole, leaf);
    if r.Fail? { return false; }
    CheckedIsChain(t, s, r.at.leaves);
    ChainsAgree(t, s, via, r.at.leaves);
    ok := via == r.at.leaves;
  }

  lemma {:induction false} CheckedIsChain(t: Tree, s: Shape, leaves: seq<PageId>)
    requires LeavesTo(t, s, leaves, 1.0)
    ensures IsChain(t, s, leaves)
  {
  }
}
