/** The B+tree as a map of nodes, what must hold of it while an insert is in progress, and the five
    elementary rewrites an insert is made of. */
module TreeShape {
  import opened KeyOrder
  import opened SplitPoints

  /** NoPage is the link of the last leaf, a zero on disk. */
  datatype PageId = NoPage | Page(id: nat)

  const SLOT_LEN := 4
  const MAX_KEY_LEN := 4096 - 21 - 4 - 2 - 6 - 4
  const MAX_SORT_KEY_LEN := MAX_KEY_LEN + RID_LEN

  /** Leaves hold sort keys and a link to the right; internal nodes hold separators and one more child. */
  datatype Node =
    | Leaf(keys: seq<Key>, next: PageId)
    | Internal(keys: seq<Key>, kids: seq<PageId>)

  datatype Tree = Tree(pages: map<PageId, Node>, root: PageId)

  /** A node's sort keys lie in [lo, hi); its parent sends it everything in [lo, cov), which is more
      only while a split of this node has not reached the parent. */
  datatype Extent = Extent(lo: real, hi: real, cov: real, level: nat)

  /** The pages of the tree with their extents, and all sort keys stored. */
  datatype Shape = Shape(at: map<PageId, Extent>, all: set<Key>)

  /** A split whose right half is not yet known to the parent. */
  datatype Pending = Whole | Split(left: PageId, right: PageId)

  // ---- Sizes ----

  function LeafCosts(keys: seq<Key>): seq<nat>
  {
    seq(|keys|, i requires 0 <= i < |keys| => SLOT_LEN + 2 + |keys[i]|)
  }

  function InternalCosts(keys: seq<Key>): seq<nat>
  {
    seq(|keys|, i requires 0 <= i < |keys| => SLOT_LEN + 2 + |keys[i]| + 4)
  }

  function Costs(n: Node): seq<nat>
  {
    match n
    case Leaf(keys, _) => LeafCosts(keys)
    case Internal(keys, _) => InternalCosts(keys)
  }

  predicate Fits(n: Node)
  {
    Sum(Costs(n)) <= CAPACITY
  }

  // ---- The invariant ----

  predicate KeySize(k: Key)
  {
    RID_LEN <= |k| <= MAX_SORT_KEY_LEN
  }

  ghost predicate Sorted(keys: seq<Key>)
  {
    forall i, j :: 0 <= i < j < |keys| ==> Rank(keys[i]) < Rank(keys[j])
  }

  ghost predicate Within(keys: seq<Key>, lo: real, hi: real)
  {
    forall i :: 0 <= i < |keys| ==> KeySize(keys[i]) && lo <= Rank(keys[i]) < hi
  }

  ghost predicate Inside(e: Extent, k: Key)
  {
    e.lo <= Rank(k) < e.hi
  }

  /** The leaf holds every stored sort key of its extent and nothing else. */
  ghost predicate Exact(keys: seq<Key>, e: Extent, all: set<Key>)
  {
    forall k :: k in keys <==> k in all && Inside(e, k)
  }

  ghost predicate LeafOk(s: Shape, e: Extent, n: Node)
    requires n.Leaf?
  {
    && e.level == 0 && Sorted(n.keys) && Within(n.keys, e.lo, e.hi) && Exact(n.keys, e, s.all)
    && (n.next == NoPage <==> e.hi == 1.0)
    && (n.next != NoPage ==> n.next in s.at && s.at[n.next].level == 0 && s.at[n.next].lo == e.hi)
  }

  ghost function SlotLo(n: Node, e: Extent, i: nat): real
    requires i <= |n.keys|
  {
    if i == 0 then e.lo else Rank(n.keys[i - 1])
  }

  ghost function SlotHi(n: Node, e: Extent, i: nat): real
    requires i <= |n.keys|
  {
    if i == |n.keys| then e.hi else Rank(n.keys[i])
  }

  ghost predicate SlotOk(at: map<PageId, Extent>, n: Node, e: Extent, i: nat)
    requires n.Internal? && i < |n.kids| == |n.keys| + 1
  {
    && n.kids[i] in at
    && at[n.kids[i]].level + 1 == e.level
    && at[n.kids[i]].lo == SlotLo(n, e, i)
    && at[n.kids[i]].cov == SlotHi(n, e, i)
  }

  ghost predicate InternalOk(s: Shape, e: Extent, n: Node)
    requires n.Internal?
  {
    && 0 < e.level && Sorted(n.keys) && Within(n.keys, e.lo, e.hi) && (n.keys != [] ==> e.lo < Rank(n.keys[0]))
    && |n.kids| == |n.keys| + 1
    && forall i: nat :: i < |n.kids| ==> SlotOk(s.at, n, e, i)
  }

  ghost predicate PageOk(t: Tree, s: Shape, p: PageId)
    requires p in s.at
  {
    var e := s.at[p];
    && p != NoPage && p in t.pages
    && 0.0 <= e.lo < e.hi <= e.cov <= 1.0
    && match t.pages[p] {
         case Leaf(_, _) => LeafOk(s, e, t.pages[p])
         case Internal(_, _) => InternalOk(s, e, t.pages[p])
       }
  }

  ghost predicate PageIn(t: Tree, s: Shape, p: PageId)
  {
    p in s.at ==> PageOk(t, s, p)
  }

  /** No two pages of one level overlap. */
  ghost predicate Disjoint(at: map<PageId, Extent>)
  {
    forall p, q :: PairOk(at, p, q)
  }

  ghost predicate PairOk(at: map<PageId, Extent>, p: PageId, q: PageId)
  {
    p in at && q in at && p != q && at[p].level == at[q].level ==> at[p].hi <= at[q].lo || at[q].hi <= at[p].lo
  }

  /** Parents are right about their children, but for the left half of a pending split. */
  ghost predicate Covers(at: map<PageId, Extent>, pend: Pending)
  {
    && (forall p :: CovOk(at, pend, p))
    && (pend.Split? ==>
          && pend.left in at && pend.right in at && pend.left != pend.right
          && at[pend.left].level == at[pend.right].level
          && at[pend.left].hi == at[pend.right].lo && at[pend.left].cov == at[pend.right].hi)
  }

  ghost predicate CovOk(at: map<PageId, Extent>, pend: Pending, p: PageId)
  {
    p in at ==> at[p].cov == at[p].hi || (pend.Split? && p == pend.left)
  }

  /** The root covers everything, from the highest level. */
  ghost predicate RootOk(t: Tree, s: Shape)
  {
    && t.root in s.at && s.at[t.root].lo == 0.0 && s.at[t.root].cov == 1.0
    && forall p :: LevelOk(s.at, s.at[t.root].level, p)
  }

  ghost predicate LevelOk(at: map<PageId, Extent>, top: nat, p: PageId)
  {
    p in at ==> at[p].level <= top
  }

  ghost predicate Inv(t: Tree, s: Shape, pend: Pending)
  {
    && (forall p :: PageIn(t, s, p))
    && Disjoint(s.at) && Covers(s.at, pend) && RootOk(t, s)
    && forall k :: StoredOk(s.all, k)
  }

  ghost predicate StoredOk(all: set<Key>, k: Key)
  {
    k in all ==> KeySize(k)
  }

  ghost predicate AllFit(t: Tree, s: Shape)
  {
    forall p :: FitAt(t, s, p)
  }

  ghost predicate FitAt(t: Tree, s: Shape, p: PageId)
  {
    p in s.at && p in t.pages ==> Fits(t.pages[p])
  }

  /** A tree no insert is working on. */
  ghost predicate Settled(t: Tree, s: Shape)
  {
    Inv(t, s, Whole) && AllFit(t, s)
  }

  /** What any number of inserts leave alone: a page keeps its lower bound and its level, and no entry goes. */
  ghost predicate Evolves(s: Shape, s': Shape)
  {
    s.all <= s'.all && forall p :: Stays(s, s', p)
  }

  ghost predicate Stays(s: Shape, s': Shape, p: PageId)
  {
    p in s.at ==> p in s'.at && s'.at[p].lo == s.at[p].lo && s'.at[p].level == s.at[p].level
  }

  lemma {:induction false} EvolvesOn(s: Shape, s1: Shape, s2: Shape)
    requires Evolves(s, s1) && Evolves(s1, s2)
    ensures Evolves(s, s2)
  {
    forall p ensures Stays(s, s2, p) { assert Stays(s, s1, p) && Stays(s1, s2, p); }
  }

  lemma {:induction false} LivePage(t: Tree, s: Shape, pend: Pending, p: PageId)
    requires Inv(t, s, pend) && p in s.at
    ensures p in t.pages && PageOk(t, s, p) && s.at[p].level <= s.at[t.root].level
    ensures s.at[p].cov == s.at[p].hi || (pend.Split? && p == pend.left)
  {
    assert PageIn(t, s, p) && LevelOk(s.at, s.at[t.root].level, p) && CovOk(s.at, pend, p);
  }

  // ---- Inserting into a sorted sequence ----

  function Inserted<T>(s: seq<T>, i: nat, x: T): (r: seq<T>)
    requires i <= |s|
    ensures |r| == |s| + 1 && r[i] == x
    ensures forall j :: 0 <= j < i ==> r[j] == s[j]
    ensures forall j :: i <= j < |s| ==> r[j + 1] == s[j]
  {
    s[..i] + [x] + s[i..]
  }

  /** `i` is where `upper_bound` puts `k`. */
  ghost predicate UpperBound(keys: seq<Key>, k: Key, i: nat)
  {
    && i <= |keys|
    && (forall j :: 0 <= j < i ==> Rank(keys[j]) <= Rank(k))
    && (forall j :: i <= j < |keys| ==> Rank(k) < Rank(keys[j]))
  }

  lemma {:induction false} InsertedSorted(keys: seq<Key>, k: Key, i: nat)
    requires Sorted(keys) && UpperBound(keys, k, i) && k !in keys
    ensures Sorted(Inserted(keys, i, k))
  {
    var r := Inserted(keys, i, k);
    forall a, b | 0 <= a < b < |r| ensures Rank(r[a]) < Rank(r[b]) {
      if a < i && b == i && Rank(r[a]) == Rank(k) { RankIsInjective(r[a], k); }
      if b > i { assert r[b] == keys[b - 1]; }
      if a > i { assert r[a] == keys[a - 1]; }
    }
  }

  lemma {:induction false} InsertedMembers<T>(s: seq<T>, i: nat, x: T, y: T)
    requires i <= |s|
    ensures y in Inserted(s, i, x) <==> y in s || y == x
  {
    var r := Inserted(s, i, x);
    if y in s {
      var j :| 0 <= j < |s| && s[j] == y;
      assert r[if j < i then j else j + 1] == y;
    }
    if y in r {
      var j :| 0 <= j < |r| && r[j] == y;
      if j > i { assert s[j - 1] == y; }
    }
  }

  // ---- Step 1: put the entry into its leaf ----

  predicate LeafInserted(t: Tree, s: Shape, p: PageId, i: nat, k: Key, t': Tree, s': Shape)
  {
    && p in t.pages && t.pages[p].Leaf? && i <= |t.pages[p].keys|
    && t' == t.(pages := t.pages[p := Leaf(Inserted(t.pages[p].keys, i, k), t.pages[p].next)])
    && s' == s.(all := s.all + {k})
  }

  lemma {:induction false} LeafInsertKeeps(t: Tree, s: Shape, p: PageId, i: nat, k: Key, t': Tree, s': Shape)
    requires Inv(t, s, Whole) && p in s.at && LeafInserted(t, s, p, i, k, t', s')
    requires UpperBound(t.pages[p].keys, k, i) && Inside(s.at[p], k) && k !in s.all && KeySize(k)
    ensures Inv(t', s', Whole) && Evolves(s, s')
  {
    LivePage(t, s, Whole, p);
    forall q ensures PageIn(t', s', q) {
      if q in s.at {
        LivePage(t, s, Whole, q);
        assert PairOk(s.at, p, q);
        if q == p { InsertedLeafOk(s, s.at[p], t.pages[p], i, k, t'.pages[p]); }
      }
    }
    forall x ensures StoredOk(s'.all, x) { assert StoredOk(s.all, x); }
  }

  lemma {:induction false} InsertedLeafOk(s: Shape, e: Extent, n: Node, i: nat, k: Key, n': Node)
    requires n.Leaf? && LeafOk(s, e, n) && UpperBound(n.keys, k, i) && Inside(e, k) && k !in s.all && KeySize(k)
    requires n' == Leaf(Inserted(n.keys, i, k), n.next)
    ensures LeafOk(s.(all := s.all + {k}), e, n')
  {
    InsertedSorted(n.keys, k, i);
    forall x ensures x in n'.keys <==> x in n.keys || x == k { InsertedMembers(n.keys, i, k, x); }
    forall j | 0 <= j < |n'.keys| ensures KeySize(n'.keys[j]) && e.lo <= Rank(n'.keys[j]) < e.hi {
      if j > i { assert n'.keys[j] == n.keys[j - 1]; }
    }
  }

  // ---- Step 2: split a leaf ----

  ghost predicate LeafSplit(t: Tree, s: Shape, p: PageId, m: nat, q: PageId, t': Tree, s': Shape)
  {
    && p in s.at && p in t.pages && t.pages[p].Leaf? && 0 < m < |t.pages[p].keys|
    && var n, e := t.pages[p], s.at[p];
       var mid := Rank(n.keys[m]);
       && t' == t.(pages := t.pages[q := Leaf(n.keys[m..], n.next)][p := Leaf(n.keys[..m], q)])
       && s' == s.(at := s.at[q := Extent(mid, e.hi, e.hi, 0)][p := Extent(e.lo, mid, e.cov, 0)])
  }

  lemma {:induction false} LeafSplitKeeps(t: Tree, s: Shape, p: PageId, m: nat, q: PageId, t': Tree, s': Shape)
    requires Inv(t, s, Whole) && LeafSplit(t, s, p, m, q, t', s') && q !in t.pages && q != NoPage
    ensures Inv(t', s', Split(p, q)) && Evolves(s, s')
  {
    LivePage(t, s, Whole, p);
    LeafSplitPages(t, s, p, m, q, t', s');
    SplitRest(t, s, p, q, Rank(t.pages[p].keys[m]), t', s');
  }

  lemma {:induction false} LeafSplitPages(t: Tree, s: Shape, p: PageId, m: nat, q: PageId, t': Tree, s': Shape)
    requires Inv(t, s, Whole) && LeafSplit(t, s, p, m, q, t', s') && q !in t.pages && q != NoPage
    ensures q !in s.at && s.at[p].level == 0 && s.at[p].lo < Rank(t.pages[p].keys[m]) < s.at[p].hi
    ensures forall x :: PageIn(t', s', x)
  {
    LivePage(t, s, Whole, p);
    assert q !in s.at by { if q in s.at { LivePage(t, s, Whole, q); } }
    SplitLeavesOk(s, s.at[p], t.pages[p], m, q, s');
    forall x ensures PageIn(t', s', x) {
      if x in s.at && x != p {
        LivePage(t, s, Whole, x);
        OtherPageOk(t, s, p, q, t', s', x);
      }
    }
  }

  lemma {:induction false} SplitLeavesOk(s: Shape, e: Extent, n: Node, m: nat, q: PageId, s': Shape)
    requires n.Leaf? && LeafOk(s, e, n) && 0 < m < |n.keys| && q != NoPage && e.hi <= 1.0 && s'.all == s.all
    requires q in s'.at && s'.at[q].level == 0 && s'.at[q].lo == Rank(n.keys[m])
    requires n.next != NoPage ==> n.next in s'.at && s'.at[n.next].level == 0 && s'.at[n.next].lo == e.hi
    ensures e.lo < Rank(n.keys[m]) < e.hi
    ensures LeafOk(s', Extent(e.lo, Rank(n.keys[m]), e.cov, 0), Leaf(n.keys[..m], q))
    ensures LeafOk(s', Extent(Rank(n.keys[m]), e.hi, e.hi, 0), Leaf(n.keys[m..], n.next))
  {
    var left, right, mid := n.keys[..m], n.keys[m..], Rank(n.keys[m]);
    assert e.lo <= Rank(n.keys[0]) < mid;
    forall k ensures k in left <==> k in s.all && e.lo <= Rank(k) < mid {
      LeftMembers(n.keys, m, k);
    }
    forall k ensures k in right <==> k in s.all && mid <= Rank(k) < e.hi {
      LeftMembers(n.keys, m, k);
    }
  }

  lemma {:induction false} LeftMembers(keys: seq<Key>, m: nat, k: Key)
    requires Sorted(keys) && m < |keys|
    ensures k in keys[..m] <==> k in keys && Rank(k) < Rank(keys[m])
    ensures k in keys[m..] <==> k in keys && Rank(keys[m]) <= Rank(k)
  {
    if k in keys {
      var j :| 0 <= j < |keys| && keys[j] == k;
      if j < m { assert keys[..m][j] == k; } else { assert keys[m..][j - m] == k; }
    }
    if k in keys[m..] {
      var j :| 0 <= j < |keys| - m && keys[m..][j] == k;
      assert keys[m + j] == k;
    }
  }

  /** Splitting one page's extent touches no other page's children or right neighbour. */
  lemma {:induction false} OtherPageOk(t: Tree, s: Shape, p: PageId, q: PageId, t': Tree, s': Shape, x: PageId)
    requires x in s.at && PageOk(t, s, x) && x != p && x in t'.pages && t'.pages[x] == t.pages[x] && s'.all == s.all
    requires p in s.at && q !in s.at && p in s'.at && q in s'.at && s'.at == s.at[q := s'.at[q]][p := s.at[p].(hi := s'.at[p].hi)]
    ensures x in s'.at && PageOk(t', s', x)
  {
    var n, e := t.pages[x], s.at[x];
    if n.Internal? {
      forall i: nat | i < |n.kids| ensures SlotOk(s'.at, n, e, i) { assert SlotOk(s.at, n, e, i); }
    }
  }

  /** Everything in the invariant but the pages themselves, after one page's extent has been split. */
  lemma {:induction false} SplitRest(t: Tree, s: Shape, p: PageId, q: PageId, mid: real, t': Tree, s': Shape)
    requires Inv(t, s, Whole) && p in s.at && q !in s.at && s.at[p].lo < mid < s.at[p].hi
    requires s' == s.(at := s.at[q := Extent(mid, s.at[p].hi, s.at[p].hi, s.at[p].level)][p := Extent(s.at[p].lo, mid, s.at[p].cov, s.at[p].level)])
    requires t'.root == t.root
    ensures Disjoint(s'.at) && Covers(s'.at, Split(p, q)) && RootOk(t', s') && Evolves(s, s')
  {
    forall x, y ensures PairOk(s'.at, x, y) {
      var a, b := if x == q then p else x, if y == q then p else y;
      assert PairOk(s.at, a, b);
    }
    assert CovOk(s.at, Whole, p);
    forall x ensures CovOk(s'.at, Split(p, q), x) { assert CovOk(s.at, Whole, x); }
    forall x ensures LevelOk(s'.at, s'.at[t'.root].level, x) {
      assert LevelOk(s.at, s.at[t.root].level, x) && LevelOk(s.at, s.at[t.root].level, p);
    }
  }

  // ---- Step 3: tell the parent about the right half ----

  ghost predicate KidAdded(t: Tree, s: Shape, pend: Pending, x: PageId, j: nat, k: Key, t': Tree, s': Shape)
  {
    && pend.Split? && pend.left in s.at && pend.right in s.at && KeySize(k) && Rank(k) == s.at[pend.right].lo
    && x in s.at && x in t.pages && t.pages[x].Internal? && j < |t.pages[x].kids| == |t.pages[x].keys| + 1
    && t.pages[x].kids[j] == pend.left
    && t' == t.(pages := t.pages[x := Internal(Inserted(t.pages[x].keys, j, k), Inserted(t.pages[x].kids, j + 1, pend.right))])
    && s' == s.(at := s.at[pend.left := s.at[pend.left].(cov := s.at[pend.left].hi)])
  }

  /** A page's separators, its own bounds included, increase from slot to slot. */
  lemma {:induction false} SlotsIncrease(s: Shape, e: Extent, n: Node, i: nat, j: nat)
    requires n.Internal? && InternalOk(s, e, n) && i < j < |n.kids| && e.lo < e.hi
    ensures e.lo <= SlotLo(n, e, i) < SlotHi(n, e, i) <= SlotLo(n, e, j) < SlotHi(n, e, j) <= e.hi
  {
  }

  lemma {:induction false} SlotInside(s: Shape, e: Extent, n: Node, i: nat)
    requires n.Internal? && InternalOk(s, e, n) && i < |n.kids| && e.lo < e.hi
    ensures e.lo <= SlotLo(n, e, i) < SlotHi(n, e, i) <= e.hi
  {
  }

  /** No page is a child twice: neither of two parents nor in two slots of one. */
  lemma {:induction false} OneParent(t: Tree, s: Shape, x: PageId, i: nat, y: PageId, j: nat)
    requires x in s.at && y in s.at && PageOk(t, s, x) && PageOk(t, s, y) && PairOk(s.at, x, y)
    requires t.pages[x].Internal? && t.pages[y].Internal? && i < |t.pages[x].kids| && j < |t.pages[y].kids|
    requires t.pages[x].kids[i] == t.pages[y].kids[j]
    ensures x == y && i == j
  {
    assert SlotOk(s.at, t.pages[x], s.at[x], i) && SlotOk(s.at, t.pages[y], s.at[y], j);
    SlotInside(s, s.at[x], t.pages[x], i);
    SlotInside(s, s.at[y], t.pages[y], j);
    if x == y && i < j {
      SlotsIncrease(s, s.at[x], t.pages[x], i, j);
    } else if x == y && j < i {
      SlotsIncrease(s, s.at[x], t.pages[x], j, i);
    }
  }

  /** The separator of a pending split belongs exactly at its left half's slot. */
  lemma {:induction false} SeparatorSlot(t: Tree, s: Shape, pend: Pending, x: PageId, j: nat, k: Key)
    requires Inv(t, s, pend) && pend.Split? && x in s.at && x in t.pages && t.pages[x].Internal? && j < |t.pages[x].kids|
    requires |t.pages[x].kids| == |t.pages[x].keys| + 1 && t.pages[x].kids[j] == pend.left && Rank(k) == s.at[pend.right].lo
    ensures UpperBound(t.pages[x].keys, k, j) && k !in t.pages[x].keys && s.at[x].lo < Rank(k) < s.at[x].hi
    ensures SlotLo(t.pages[x], s.at[x], j) < Rank(k) < SlotHi(t.pages[x], s.at[x], j)
  {
    LivePage(t, s, pend, x);
    LivePage(t, s, pend, pend.left);
    LivePage(t, s, pend, pend.right);
    assert SlotOk(s.at, t.pages[x], s.at[x], j);
    SlotInside(s, s.at[x], t.pages[x], j);
  }

  lemma {:induction false} KidAddedNode(s: Shape, e: Extent, n: Node, pend: Pending, j: nat, k: Key, s': Shape, n': Node)
    requires n.Internal? && InternalOk(s, e, n) && e.lo < e.hi && pend.Split? && Covers(s.at, pend) && j < |n.kids|
    requires n.kids[j] == pend.left && Rank(k) == s.at[pend.right].lo && KeySize(k)
    requires UpperBound(n.keys, k, j) && k !in n.keys && e.lo < Rank(k) < e.hi
    requires n' == Internal(Inserted(n.keys, j, k), Inserted(n.kids, j + 1, pend.right))
    requires s' == s.(at := s.at[pend.left := s.at[pend.left].(cov := s.at[pend.left].hi)])
    ensures InternalOk(s', e, n')
  {
    InsertedSorted(n.keys, k, j);
    forall i | 0 <= i < |n'.keys| ensures KeySize(n'.keys[i]) && e.lo <= Rank(n'.keys[i]) < e.hi {
      if i > j { assert n'.keys[i] == n.keys[i - 1]; }
    }
    forall i: nat | i < |n'.kids| ensures SlotOk(s'.at, n', e, i) {
      KidAddedSlot(s, e, n, pend, j, k, s', n', i);
    }
  }

  lemma {:induction false} KidAddedSlot(s: Shape, e: Extent, n: Node, pend: Pending, j: nat, k: Key, s': Shape, n': Node, i: nat)
    requires n.Internal? && InternalOk(s, e, n) && e.lo < e.hi && pend.Split? && Covers(s.at, pend) && j < |n.kids|
    requires n.kids[j] == pend.left && Rank(k) == s.at[pend.right].lo
    requires n' == Internal(Inserted(n.keys, j, k), Inserted(n.kids, j + 1, pend.right))
    requires s' == s.(at := s.at[pend.left := s.at[pend.left].(cov := s.at[pend.left].hi)]) && i < |n'.kids|
    ensures SlotOk(s'.at, n', e, i)
  {
    assert CovOk(s.at, pend, pend.right);
    assert SlotOk(s.at, n, e, j);
    if i < j {
      assert SlotOk(s.at, n, e, i);
      SlotsIncrease(s, e, n, i, j);
      SlotsBefore(n, e, j, k, pend.right, n', i);
    } else if i > j + 1 {
      assert SlotOk(s.at, n, e, i - 1);
      SlotsIncrease(s, e, n, j, i - 1);
      SlotsAfter(n, e, j, k, pend.right, n', i);
    } else {
      SlotsAt(n, e, j, k, pend.right, n');
    }
  }

  lemma {:induction false} SlotsBefore(n: Node, e: Extent, j: nat, k: Key, right: PageId, n': Node, i: nat)
    requires n.Internal? && |n.kids| == |n.keys| + 1 && i < j < |n.kids|
    requires n' == Internal(Inserted(n.keys, j, k), Inserted(n.kids, j + 1, right))
    ensures n'.kids[i] == n.kids[i] && SlotLo(n', e, i) == SlotLo(n, e, i) && SlotHi(n', e, i) == SlotHi(n, e, i)
  {
  }

  lemma {:induction false} SlotsAt(n: Node, e: Extent, j: nat, k: Key, right: PageId, n': Node)
    requires n.Internal? && |n.kids| == |n.keys| + 1 && j < |n.kids|
    requires n' == Internal(Inserted(n.keys, j, k), Inserted(n.kids, j + 1, right))
    ensures n'.kids[j] == n.kids[j] && SlotLo(n', e, j) == SlotLo(n, e, j) && SlotHi(n', e, j) == Rank(k)
    ensures n'.kids[j + 1] == right && SlotLo(n', e, j + 1) == Rank(k) && SlotHi(n', e, j + 1) == SlotHi(n, e, j)
  {
    assert j < |n.keys| ==> n'.keys[j + 1] == n.keys[j];
  }

  lemma {:induction false} SlotsAfter(n: Node, e: Extent, j: nat, k: Key, right: PageId, n': Node, i: nat)
    requires n.Internal? && |n.kids| == |n.keys| + 1 && j + 1 < i <= |n.kids|
    requires n' == Internal(Inserted(n.keys, j, k), Inserted(n.kids, j + 1, right))
    ensures n'.kids[i] == n.kids[i - 1] && SlotLo(n', e, i) == SlotLo(n, e, i - 1) && SlotHi(n', e, i) == SlotHi(n, e, i - 1)
  {
    assert n'.kids[i] == n.kids[i - 1] && n'.keys[i - 1] == n.keys[i - 2];
    assert i < |n'.keys| ==> n'.keys[i] == n.keys[i - 1];
  }

  lemma {:induction false} KidAddedKeeps(t: Tree, s: Shape, pend: Pending, x: PageId, j: nat, k: Key, t': Tree, s': Shape)
    requires Inv(t, s, pend) && KidAdded(t, s, pend, x, j, k, t', s')
    ensures Inv(t', s', Whole) && Evolves(s, s')
  {
    KidAddedPages(t, s, pend, x, j, k, t', s');
    LivePage(t, s, pend, x);
    assert SlotOk(s.at, t.pages[x], s.at[x], j);
    assert pend.left != t.root;
    forall y, z ensures PairOk(s'.at, y, z) { assert PairOk(s.at, y, z); }
    forall y ensures CovOk(s'.at, Whole, y) { assert CovOk(s.at, pend, y); }
    forall y ensures LevelOk(s'.at, s'.at[t'.root].level, y) { assert LevelOk(s.at, s.at[t.root].level, y); }
  }

  lemma {:induction false} KidAddedPages(t: Tree, s: Shape, pend: Pending, x: PageId, j: nat, k: Key, t': Tree, s': Shape)
    requires Inv(t, s, pend) && KidAdded(t, s, pend, x, j, k, t', s')
    ensures forall y :: PageIn(t', s', y)
  {
    SeparatorSlot(t, s, pend, x, j, k);
    LivePage(t, s, pend, x);
    LivePage(t, s, pend, pend.left);
    assert SlotOk(s.at, t.pages[x], s.at[x], j);
    KidAddedNode(s, s.at[x], t.pages[x], pend, j, k, s', t'.pages[x]);
    forall y ensures PageIn(t', s', y) {
      if y in s.at {
        LivePage(t, s, pend, y);
        assert PairOk(s.at, x, y);
        if y != x { KidAddedElsewhere(t, s, pend, x, j, t', s', y); }
      }
    }
  }

  lemma {:induction false} KidAddedElsewhere(t: Tree, s: Shape, pend: Pending, x: PageId, j: nat, t': Tree, s': Shape, y: PageId)
    requires x in s.at && y in s.at && x != y && PageOk(t, s, x) && PageOk(t, s, y) && PairOk(s.at, x, y) && pend.Split?
    requires pend.left in s.at && PageOk(t, s, pend.left)
    requires t.pages[x].Internal? && j < |t.pages[x].kids| && t.pages[x].kids[j] == pend.left
    requires y in t'.pages && t'.pages[y] == t.pages[y]
    requires s' == s.(at := s.at[pend.left := s.at[pend.left].(cov := s.at[pend.left].hi)])
    ensures PageOk(t', s', y)
  {
    var n, e := t.pages[y], s.at[y];
    if n.Internal? {
      forall i: nat | i < |n.kids| ensures SlotOk(s'.at, n, s'.at[y], i) {
        assert SlotOk(s.at, n, e, i);
        if n.kids[i] == pend.left { OneParent(t, s, x, j, y, i); }
      }
    }
  }

  // ---- Step 4: split an internal node ----

  ghost predicate InternalSplit(t: Tree, s: Shape, x: PageId, m: nat, q: PageId, t': Tree, s': Shape)
  {
    && x in s.at && x in t.pages && t.pages[x].Internal? && m < |t.pages[x].keys| && |t.pages[x].kids| == |t.pages[x].keys| + 1
    && var n, e := t.pages[x], s.at[x];
       var mid := Rank(n.keys[m]);
       && t' == t.(pages := t.pages[q := Internal(n.keys[m + 1..], n.kids[m + 1..])][x := Internal(n.keys[..m], n.kids[..m + 1])])
       && s' == s.(at := s.at[q := Extent(mid, e.hi, e.hi, e.level)][x := Extent(e.lo, mid, e.cov, e.level)])
  }

  lemma {:induction false} LeftNodeOk(s: Shape, e: Extent, n: Node, m: nat, s': Shape)
    requires n.Internal? && InternalOk(s, e, n) && m < |n.keys| && forall y :: SameSlot(s, s', y)
    ensures e.lo < Rank(n.keys[m]) < e.hi
    ensures InternalOk(s', Extent(e.lo, Rank(n.keys[m]), e.cov, e.level), Internal(n.keys[..m], n.kids[..m + 1]))
  {
    var l, le := Internal(n.keys[..m], n.kids[..m + 1]), Extent(e.lo, Rank(n.keys[m]), e.cov, e.level);
    forall i: nat | i < |l.kids| ensures SlotOk(s'.at, l, le, i) {
      assert SlotOk(s.at, n, e, i) && SameSlot(s, s', n.kids[i]);
    }
  }

  lemma {:induction false} RightNodeOk(s: Shape, e: Extent, n: Node, m: nat, s': Shape)
    requires n.Internal? && InternalOk(s, e, n) && m < |n.keys| && forall y :: SameSlot(s, s', y)
    ensures InternalOk(s', Extent(Rank(n.keys[m]), e.hi, e.hi, e.level), Internal(n.keys[m + 1..], n.kids[m + 1..]))
  {
    var r, re := Internal(n.keys[m + 1..], n.kids[m + 1..]), Extent(Rank(n.keys[m]), e.hi, e.hi, e.level);
    forall i | 0 <= i < |r.keys| ensures r.keys[i] == n.keys[i + m + 1] && re.lo < Rank(r.keys[i]) {
    }
    forall i, j | 0 <= i < j < |r.keys| ensures Rank(r.keys[i]) < Rank(r.keys[j]) {
      assert r.keys[i] == n.keys[i + m + 1] && r.keys[j] == n.keys[j + m + 1];
    }
    forall i: nat | i < |r.kids| ensures SlotOk(s'.at, r, re, i) {
      assert SlotOk(s.at, n, e, i + m + 1) && SameSlot(s, s', n.kids[i + m + 1]);
    }
  }

  /** What a parent knows of its child has not changed. */
  ghost predicate SameSlot(s: Shape, s': Shape, y: PageId)
  {
    y in s.at ==> y in s'.at && s'.at[y].lo == s.at[y].lo && s'.at[y].cov == s.at[y].cov && s'.at[y].level == s.at[y].level
  }

  lemma {:induction false} InternalSplitKeeps(t: Tree, s: Shape, x: PageId, m: nat, q: PageId, t': Tree, s': Shape)
    requires Inv(t, s, Whole) && InternalSplit(t, s, x, m, q, t', s') && q !in t.pages && q != NoPage
    ensures Inv(t', s', Split(x, q)) && Evolves(s, s')
  {
    LivePage(t, s, Whole, x);
    assert q !in s.at by { if q in s.at { LivePage(t, s, Whole, q); } }
    forall y ensures SameSlot(s, s', y) { }
    LeftNodeOk(s, s.at[x], t.pages[x], m, s');
    RightNodeOk(s, s.at[x], t.pages[x], m, s');
    forall y ensures PageIn(t', s', y) {
      if y in s.at && y != x {
        LivePage(t, s, Whole, y);
        OtherPageOk(t, s, x, q, t', s', y);
      }
    }
    SplitRest(t, s, x, q, Rank(t.pages[x].keys[m]), t', s');
  }

  // ---- Step 5: grow a new root ----

  ghost predicate RootAdded(t: Tree, s: Shape, right: PageId, k: Key, x: PageId, t': Tree, s': Shape)
  {
    && t.root in s.at && right in s.at && KeySize(k) && Rank(k) == s.at[right].lo
    && t' == Tree(t.pages[x := Internal([k], [t.root, right])], x)
    && var e := s.at[t.root];
       s' == s.(at := s.at[t.root := e.(cov := e.hi)][x := Extent(0.0, 1.0, 1.0, e.level + 1)])
  }

  lemma {:induction false} RootAddedKeeps(t: Tree, s: Shape, right: PageId, k: Key, x: PageId, t': Tree, s': Shape)
    requires Inv(t, s, Split(t.root, right)) && RootAdded(t, s, right, k, x, t', s') && x !in t.pages && x != NoPage
    ensures Inv(t', s', Whole) && Evolves(s, s')
  {
    RootAddedPages(t, s, right, k, x, t', s');
    forall y ensures LevelOk(s'.at, s'.at[x].level, y) { assert LevelOk(s.at, s.at[t.root].level, y); }
    forall y ensures CovOk(s'.at, Whole, y) { assert CovOk(s.at, Split(t.root, right), y); }
    forall y, z ensures PairOk(s'.at, y, z) {
      assert PairOk(s.at, y, z) && LevelOk(s.at, s.at[t.root].level, y) && LevelOk(s.at, s.at[t.root].level, z);
    }
  }

  lemma {:induction false} RootAddedPages(t: Tree, s: Shape, right: PageId, k: Key, x: PageId, t': Tree, s': Shape)
    requires Inv(t, s, Split(t.root, right)) && RootAdded(t, s, right, k, x, t', s') && x !in t.pages && x != NoPage
    ensures x !in s.at && forall y :: PageIn(t', s', y)
  {
    var pend := Split(t.root, right);
    LivePage(t, s, pend, t.root);
    LivePage(t, s, pend, right);
    assert x !in s.at by { if x in s.at { LivePage(t, s, pend, x); } }
    NewRootOk(t, s, right, k, s', t'.pages[x], s'.at[x]);
    forall y ensures PageIn(t', s', y) {
      if y in s.at {
        LivePage(t, s, pend, y);
        RootHasNoParent(t, s, t', s', y);
      }
    }
  }

  lemma {:induction false} NewRootOk(t: Tree, s: Shape, right: PageId, k: Key, s': Shape, n: Node, e: Extent)
    requires t.root in s.at && right in s.at && Covers(s.at, Split(t.root, right)) && KeySize(k) && Rank(k) == s.at[right].lo
    requires s.at[t.root].lo == 0.0 < s.at[t.root].hi && s.at[t.root].cov == 1.0 && s.at[right].lo < s.at[right].hi
    requires n == Internal([k], [t.root, right]) && e == Extent(0.0, 1.0, 1.0, s.at[t.root].level + 1)
    requires t.root in s'.at && right in s'.at && s'.at[t.root] == s.at[t.root].(cov := s.at[t.root].hi) && s'.at[right] == s.at[right]
    ensures InternalOk(s', e, n)
  {
    assert CovOk(s.at, Split(t.root, right), right);
    forall i: nat | i < |n.kids| ensures SlotOk(s'.at, n, e, i) {
      assert i == 0 || i == 1;
    }
  }

  lemma {:induction false} RootHasNoParent(t: Tree, s: Shape, t': Tree, s': Shape, y: PageId)
    requires y in s.at && PageOk(t, s, y) && t.root in s.at && s.at[y].level <= s.at[t.root].level && s.at[t.root].lo < s.at[t.root].hi
    requires y in t'.pages && t'.pages[y] == t.pages[y] && s'.all == s.all
    requires s.at.Keys <= s'.at.Keys && s'.at[t.root] == s.at[t.root].(cov := s.at[t.root].hi)
    requires forall z :: z in s.at && z != t.root ==> s'.at[z] == s.at[z]
    ensures PageOk(t', s', y)
  {
    var n := t.pages[y];
    if n.Internal? {
      forall i: nat | i < |n.kids| ensures SlotOk(s'.at, n, s'.at[y], i) { assert SlotOk(s.at, n, s.at[y], i); }
    }
  }
}
