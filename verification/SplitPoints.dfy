/** Where an overfull index node is split, and when both halves fit a page. A node is a sequence of
    entry costs here: four bytes of slot plus the payload. */
module SplitPoints {
  /** Bytes of a page left for slots and payloads. */
  const CAPACITY := 4096 - 21

  function Sum(c: seq<nat>): nat
  {
    if c == [] then 0 else Sum(c[..|c| - 1]) + c[|c| - 1]
  }

  lemma {:induction false} SumSplit(c: seq<nat>, i: nat)
    requires i <= |c|
    ensures Sum(c) == Sum(c[..i]) + Sum(c[i..])
    decreases |c|
  {
    if i == |c| {
      assert c[..i] == c;
    } else {
      var d := c[..|c| - 1];
      SumSplit(d, i);
      assert d[..i] == c[..i] && c[i..][..|c[i..]| - 1] == d[i..];
    }
  }

  lemma {:induction false} SumStep(c: seq<nat>, i: nat)
    requires i < |c|
    ensures Sum(c[..i + 1]) == Sum(c[..i]) + c[i]
  {
    assert c[..i + 1][..i] == c[..i];
  }

  lemma {:induction false} SumGrows(c: seq<nat>, i: nat, j: nat)
    requires i <= j <= |c|
    ensures Sum(c[..i]) <= Sum(c[..j])
  {
    SumSplit(c[..j], i);
    assert c[..j][..i] == c[..i];
  }

  lemma {:induction false} SumInsert(c: seq<nat>, i: nat, x: nat)
    requires i <= |c|
    ensures Sum(c[..i] + [x] + c[i..]) == Sum(c) + x
  {
    var d := c[..i] + [x] + c[i..];
    SumSplit(c, i);
    SumSplit(d, i + 1);
    SumStep(d, i);
    assert d[..i] == c[..i] && d[i + 1..] == c[i..];
  }

  /** The first entry at which half of the bytes have been passed. */
  predicate Balanced(c: seq<nat>, m: nat)
  {
    m < |c| && Sum(c) / 2 <= Sum(c[..m + 1]) && (m > 0 ==> Sum(c[..m]) < Sum(c) / 2)
  }

  /** `byte_balanced_split_point`. */
  method BalancedPoint(c: seq<nat>) returns (m: nat)
    requires c != []
    ensures Balanced(c, m)
  {
    var total := 0;
    for i := 0 to |c|
      invariant total == Sum(c[..i])
    {
      SumStep(c, i);
      total := total + c[i];
    }
    assert c[..|c|] == c;
    var running := 0;
    m := |c| - 1;
    for i := 0 to |c|
      invariant running == Sum(c[..i]) && (i > 0 ==> running < total / 2)
    {
      SumStep(c, i);
      running := running + c[i];
      if running >= total / 2 { return i; }
    }
  }

  function Clamp(x: int, low: int, high: int): int
  {
    if x < low then low else if high < x then high else x
  }

  /** `leaf_split_point` and `internal_split_point`, from the balanced point. */
  function LeafPoint(n: nat, m: nat): (s: nat)
    requires 2 <= n
    ensures 0 < s < n
  {
    Clamp(m + 1, 1, n - 1)
  }

  function InternalPoint(n: nat, m: nat): (s: nat)
    requires 1 <= n
    ensures s < n && (3 <= n ==> 0 < s < n - 1)
  {
    if 3 <= n then Clamp(m, 1, n - 2) else if m < n - 1 then m else n - 1
  }

  /** A leaf that overflowed by one entry, none of them over a third of the capacity, splits into two that fit. */
  lemma {:induction false} LeafHalvesFit(c: seq<nat>, m: nat)
    requires 2 <= |c| && Balanced(c, m) && Sum(c) <= CAPACITY + CAPACITY / 3
    requires forall i :: 0 <= i < |c| ==> c[i] <= CAPACITY / 3
    ensures var s := LeafPoint(|c|, m); Sum(c[..s]) <= CAPACITY && Sum(c[s..]) <= CAPACITY
  {
    var s := LeafPoint(|c|, m);
    SumSplit(c, s);
    if m + 1 == s {
      SumStep(c, m);
      assert m == 0 ==> Sum(c[..m]) == 0;
    } else {
      assert s == m == |c| - 1;
      assert c[s..] == [c[s]];
      assert Sum([c[s]]) == c[s];
    }
  }

  /** An internal node that overflowed by one entry always splits into two that fit around the entry pushed up. */
  lemma {:induction false} InternalHalvesFit(c: seq<nat>, m: nat)
    requires 1 <= |c| && Balanced(c, m) && Sum(c) <= 2 * CAPACITY
    requires forall i :: 0 <= i < |c| ==> c[i] <= CAPACITY
    ensures var s := InternalPoint(|c|, m); Sum(c[..s]) <= CAPACITY && Sum(c[s + 1..]) <= CAPACITY
  {
    var n, s := |c|, InternalPoint(|c|, m);
    SumSplit(c, s + 1);
    SumSplit(c, m + 1);
    if s == m {
    } else if m < s {
      assert m == 0 && s == 1;
      assert c[..1] == [c[0]];
      assert Sum([c[0]]) == c[0];
      SumGrows(c, m + 1, s + 1);
    } else {
      assert m == n - 1 && s == n - 2;
      SumGrows(c, s, m);
      assert c[s + 1..] == [c[n - 1]];
      assert Sum([c[n - 1]]) == c[n - 1];
    }
  }
}
