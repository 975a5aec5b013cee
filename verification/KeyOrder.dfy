/** Byte-string order, and the sort keys of index entries: the key followed by the row id. */
module KeyOrder {
  import opened Bytes

  type Key = seq<byte>

  /** A byte string as a fraction whose digits are its bytes: numeric order is byte-string order. */
  ghost function Rank(k: Key): (r: real)
    ensures 0.0 <= r < 1.0
    ensures r == 0.0 <==> k == []
  {
    if k == [] then 0.0 else (k[0] as real + 1.0 + Rank(k[1..])) / 257.0
  }

  /** `a < b` on byte slices. */
  predicate Less(a: Key, b: Key)
  {
    b != [] && (a == [] || a[0] < b[0] || (a[0] == b[0] && Less(a[1..], b[1..])))
  }

  lemma {:induction false} LessIsRank(a: Key, b: Key)
    ensures Less(a, b) <==> Rank(a) < Rank(b)
    decreases |a|
  {
    if a != [] && b != [] {
      if a[0] == b[0] {
        LessIsRank(a[1..], b[1..]);
      } else if a[0] < b[0] {
        assert a[0] as real + 1.0 <= b[0] as real;
      } else {
        assert b[0] as real + 1.0 <= a[0] as real;
      }
    }
  }

  /** Different byte strings have different ranks. */
  lemma {:induction false} RankIsInjective(a: Key, b: Key)
    requires Rank(a) == Rank(b)
    ensures a == b
    decreases |a|
  {
    LessIsRank(a, b);
    LessIsRank(b, a);
    if a != [] && b != [] {
      RankIsInjective(a[1..], b[1..]);
      assert a == [a[0]] + a[1..] && b == [b[0]] + b[1..];
    }
  }

  lemma {:induction false} PrefixIsNotAbove(k: Key, tail: Key)
    ensures Rank(k) <= Rank(k + tail)
  {
    if k != [] {
      PrefixIsNotAbove(k[1..], tail);
      assert (k + tail)[1..] == k[1..] + tail;
    }
  }

  lemma {:induction false} PrefixIsBelow(k: Key, tail: Key)
    requires tail != []
    ensures Rank(k) < Rank(k + tail)
  {
    PrefixIsNotAbove(k, tail);
    if Rank(k) == Rank(k + tail) { RankIsInjective(k, k + tail); }
  }

  /** Appending a zero byte gives the next byte string. */
  lemma {:induction false} SuccessorIsNext(a: Key, b: Key)
    requires Rank(a) < Rank(b)
    ensures Rank(a + [0]) <= Rank(b)
    decreases |a|
  {
    LessIsRank(a, b);
    if a == [] {
      assert a + [0] == [0] && Rank([0]) == 1.0 / 257.0;
    } else {
      assert (a + [0])[0] == a[0] && (a + [0])[1..] == a[1..] + [0];
      if a[0] == b[0] {
        LessIsRank(a[1..], b[1..]);
        SuccessorIsNext(a[1..], b[1..]);
      } else {
        assert a[0] as real + 1.0 <= b[0] as real;
      }
    }
  }

  /** Neither key is a prefix of the other. */
  predicate Apart(a: Key, b: Key)
  {
    !(a <= b) && !(b <= a)
  }

  /** The first difference between two such keys decides, whatever is appended to them. */
  lemma {:induction false} ApartDecides(a: Key, b: Key, x: Key, y: Key)
    requires Apart(a, b)
    ensures Rank(a) < Rank(b) <==> Rank(a + x) < Rank(b + y)
    ensures Rank(a) < Rank(b) <==> Rank(a + x) < Rank(b)
    ensures Rank(a) != Rank(b) && Rank(a + x) != Rank(b + y) && Rank(a + x) != Rank(b)
    decreases |a|
  {
    assert (a + x)[0] == a[0] && (b + y)[0] == b[0];
    assert (a + x)[1..] == a[1..] + x && (b + y)[1..] == b[1..] + y;
    if a[0] == b[0] {
      assert a == [a[0]] + a[1..] && b == [b[0]] + b[1..];
      assert Apart(a[1..], b[1..]);
      ApartDecides(a[1..], b[1..], x, y);
    } else if a[0] < b[0] {
      assert a[0] as real + 1.0 <= b[0] as real;
    } else {
      assert b[0] as real + 1.0 <= a[0] as real;
    }
  }

  // ---- Sort keys ----

  datatype Rid = Rid(page: U32, slot: U16)

  const RID_LEN := 6

  function RidBytes(rid: Rid): (s: seq<byte>)
    ensures |s| == RID_LEN
  {
    LeBytes(rid.page, 4) + LeBytes(rid.slot, 2)
  }

  function SortKey(key: Key, rid: Rid): Key
  {
    key + RidBytes(rid)
  }

  function KeyOf(sk: Key): Key
    requires |sk| >= RID_LEN
  {
    sk[..|sk| - RID_LEN]
  }

  function RidOf(sk: Key): Rid
    requires |sk| >= RID_LEN
  {
    Widths();
    var at := |sk| - RID_LEN;
    Rid(FromLe(sk[at..at + 4]), FromLe(sk[at + 4..]))
  }

  /** A sort key names exactly one (key, rid) pair. */
  lemma {:induction false} SortKeyRoundTrip(key: Key, rid: Rid)
    ensures var sk := SortKey(key, rid); |sk| >= RID_LEN && KeyOf(sk) == key && RidOf(sk) == rid
  {
    Widths();
    var sk := SortKey(key, rid);
    LeRoundTrip(rid.page, 4);
    LeRoundTrip(rid.slot, 2);
    var at := |sk| - RID_LEN;
    assert sk[at..at + 4] == LeBytes(rid.page, 4);
    assert sk[at + 4..] == LeBytes(rid.slot, 2);
  }

  lemma {:induction false} LeOfFrom(s: seq<byte>)
    ensures LeBytes(FromLe(s), |s|) == s
  {
    if s != [] {
      var n, rest := FromLe(s), FromLe(s[1..]);
      assert n % 256 == s[0] && n / 256 == rest by { LowByte(s[0], rest); }
      LeOfFrom(s[1..]);
      assert s == [s[0]] + s[1..];
    }
  }

  lemma {:induction false} LowByte(b: byte, rest: nat)
    ensures (b + 256 * rest) % 256 == b && (b + 256 * rest) / 256 == rest
  {
  }

  lemma {:induction false} SortKeyOfParts(sk: Key)
    requires |sk| >= RID_LEN
    ensures SortKey(KeyOf(sk), RidOf(sk)) == sk
  {
    Widths();
    var at := |sk| - RID_LEN;
    LeOfFrom(sk[at..at + 4]);
    LeOfFrom(sk[at + 4..]);
    assert sk == sk[..at] + (sk[at..at + 4] + sk[at + 4..]);
  }

  /** No stored key is a proper prefix of another. */
  predicate PrefixFree(all: set<Key>)
  {
    forall a, b :: a in all && b in all ==> SameOrApart(a, b)
  }

  predicate SameOrApart(a: Key, b: Key)
  {
    |a| >= RID_LEN && |b| >= RID_LEN && (KeyOf(a) == KeyOf(b) || Apart(KeyOf(a), KeyOf(b)))
  }

  /** Then sort-key order agrees with key order. */
  lemma {:induction false} SortOrderIsKeyOrder(a: Key, b: Key)
    requires SameOrApart(a, b) && Rank(a) <= Rank(b)
    ensures Rank(KeyOf(a)) <= Rank(KeyOf(b))
  {
    var x, y := KeyOf(a), KeyOf(b);
    assert a == x + a[|x|..] && b == y + b[|y|..];
    if x != y { ApartDecides(x, y, a[|x|..], b[|y|..]); }
  }
}
