/** Opening, appending, flushing, truncating and iterating the segmented log. */
module LogManagement {
  import opened Bytes
  import opened LogRecords
  import opened Options
  import opened LogCodec
  import opened SegmentedLog
  import opened WriteAheadLog

  // ---- Opening ----

  /** `existing_segments`: the ids of all files, sorted. */
  method SortedIds(store: map<nat, seq<byte>>) returns (ids: seq<nat>)
    ensures (forall i, j :: IdPair(ids, i, j)) && store.Keys == (set id | id in ids)
  {
    ids := [];
    var left := store.Keys;
    while left != {}
      invariant forall i, j :: IdPair(ids, i, j)
      invariant left + (set id | id in ids) == store.Keys
      invariant forall x, y :: x in ids && y in left ==> x < y
      decreases |left|
    {
      var m := Smallest(left);
      ghost var was := ids;
      ids, left := ids + [m], left - {m};
      forall i, j ensures IdPair(ids, i, j) {
        assert IdPair(was, i, j);
        if 0 <= i < j == |was| { assert ids[i] == was[i] && was[i] in was; }
      }
      assert forall x :: x in ids <==> x in was || x == m;
    }
  }

  method Smallest(s: set<nat>) returns (m: nat)
    requires s != {}
    ensures m in s && forall x :: x in s ==> m <= x
  {
    m :| m in s;
    var left := s - {m};
    while left != {}
      invariant m in s && left <= s && forall x :: x in s && x !in left ==> m <= x
      decreases |left|
    {
      var x :| x in left;
      if x < m { m := x; }
      left := left - {x};
    }
  }

  /** A set has one sorted listing. */
  lemma {:induction false} SameIds(a: seq<nat>, b: seq<nat>)
    requires (forall i, j :: IdPair(a, i, j)) && (forall i, j :: IdPair(b, i, j)) && (forall x :: x in a <==> x in b)
    ensures a == b
    decreases |a|
  {
    if a == [] {
      var x := Member(b);
    } else {
      assert a[|a| - 1] in b;
      var p, q := a[|a| - 1], b[|b| - 1];
      assert q in a;
      var i :| 0 <= i < |a| && a[i] == q;
      var j :| 0 <= j < |b| && b[j] == p;
      assert IdPair(a, i, |a| - 1) && IdPair(b, j, |b| - 1);
      var a', b' := a[..|a| - 1], b[..|b| - 1];
      forall i, j ensures IdPair(a', i, j) && IdPair(b', i, j) { assert IdPair(a, i, j) && IdPair(b, i, j); }
      forall x ensures x in a' <==> x in b' { WithoutLast(a, x); WithoutLast(b, x); }
      SameIds(a', b');
      assert a == a' + [p] && b == b' + [q];
    }
  }

  lemma {:induction false} Member(b: seq<nat>) returns (x: nat)
    ensures b != [] ==> x in b
  {
    x := if b == [] then 0 else b[0];
  }

  lemma {:induction false} WithoutLast(a: seq<nat>, x: nat)
    requires a != [] && forall i, j :: IdPair(a, i, j)
    ensures x in a[..|a| - 1] <==> x in a && x != a[|a| - 1]
  {
    if x in a && x != a[|a| - 1] {
      var i :| 0 <= i < |a| && a[i] == x;
      assert a[..|a| - 1][i] == x;
    }
    if x in a[..|a| - 1] {
      var i :| 0 <= i < |a| - 1 && a[..|a| - 1][i] == x;
      assert IdPair(a, i, |a| - 1) && a[i] == x;
    }
  }

  /** The first `i` files have been scanned. */
  ghost predicate Scanned(d: Disk, i: nat, sealed: seq<Segment>, last: map<TxnId, Lsn>, end: nat)
    requires i < |d.ids| == |d.starts| && d.starts[0] <= d.starts[i] <= |d.log|
  {
    && |sealed| == i && last == LastMap(d.log[d.starts[0]..d.starts[i]])
    && (if i == 0 then end == HEADER_LEN else end == LsnAt(d.log, d.starts[i]))
    && forall j :: SealedIs(d, sealed, j)
  }

  predicate SealedIs(d: Disk, sealed: seq<Segment>, j: int)
  {
    0 <= j < |sealed| && j < |d.ids| == |d.starts| && d.starts[j] <= |d.log| ==> sealed[j] == Segment(d.ids[j], LsnAt(d.log, d.starts[j]))
  }

  lemma {:induction false} DiskStarts(crc: Checksum, store: map<nat, seq<byte>>, d: Disk, i: nat)
    requires OnDisk(crc, store, d) && i < |d.ids|
    ensures d.starts[0] <= d.starts[i] <= |d.log| && LsnAt(d.log, d.starts[i]) < 0x1_0000_0000_0000_0000
    ensures i + 1 < |d.ids| ==> d.starts[i] <= d.starts[i + 1]
    ensures d.ids[i] in store
  {
    assert Ordered(d.starts, 0, i) && Ordered(d.starts, i, |d.ids| - 1) && FileIs(store, d, i);
    if i + 1 < |d.ids| { assert Ordered(d.starts, i, i + 1); }
    LsnOrder(crc, d.log, d.starts[i], |d.log|);
    assert d.ids[i] in d.ids;
  }

  lemma {:induction false} SliceOk(crc: Checksum, log: seq<Entry>, i: nat, j: nat)
    requires Numbered(crc, log) && i <= j <= |log|
    ensures forall k :: 0 <= k < |log[i..j]| ==> EntryOk(crc, log[i..j][k])
  {
    forall k | 0 <= k < |log[i..j]| ensures EntryOk(crc, log[i..j][k]) { assert RecordOk(crc, log, i + k); }
  }

  /** One turn of the loop over the sealed files. */
  method ScanSealed(crc: Checksum, store: map<nat, seq<byte>>, ghost d: Disk, i: nat, id: nat) returns (ok: bool, start: nat, last: map<TxnId, Lsn>, end: nat)
    requires OnDisk(crc, store, d) && i + 1 < |d.ids| && id == d.ids[i] && id in store
    requires d.starts[0] <= d.starts[i] <= d.starts[i + 1] <= |d.log|
    ensures ok && start == LsnAt(d.log, d.starts[i]) && last == LastMap(d.log[d.starts[i]..d.starts[i + 1]]) && end == LsnAt(d.log, d.starts[i + 1])
  {
    assert FileIs(store, d, i);
    DiskStarts(crc, store, d, i);
    var b := store[id];
    ghost var part := d.log[d.starts[i]..d.starts[i + 1]];
    HeaderReads(LsnAt(d.log, d.starts[i]), Concat(part));
    SliceOk(crc, d.log, d.starts[i], d.starts[i + 1]);
    LsnGrows(d.log, d.starts[i], d.starts[i + 1]);
    assert b == Header(LsnAt(d.log, d.starts[i])) + Concat(part) + [];
    ok, start, last, end := false, 0, map[], 0;
    var h := ReadHeader(b);
    if h.None? { return; }
    var pos;
    pos, last := ScanRecords(crc, b, Header(LsnAt(d.log, d.starts[i])), part, []);
    ok, start, end := pos == |b|, h.value, h.value + (pos - HEADER_LEN);
  }

  lemma {:induction false} ScannedMore(crc: Checksum, store: map<nat, seq<byte>>, d: Disk, i: nat, sealed: seq<Segment>, last: map<TxnId, Lsn>, end: nat,
                                       more: map<TxnId, Lsn>)
    requires OnDisk(crc, store, d) && i + 1 < |d.ids| && d.starts[0] <= d.starts[i] <= d.starts[i + 1] <= |d.log|
    requires Scanned(d, i, sealed, last, end) && more == LastMap(d.log[d.starts[i]..d.starts[i + 1]])
    ensures Scanned(d, i + 1, sealed + [Segment(d.ids[i], LsnAt(d.log, d.starts[i]))], last + more, LsnAt(d.log, d.starts[i + 1]))
  {
    var a, b, c := d.starts[0], d.starts[i], d.starts[i + 1];
    LastMapJoin(d.log[a..b], d.log[b..c]);
    assert d.log[a..b] + d.log[b..c] == d.log[a..c];
    var next := sealed + [Segment(d.ids[i], LsnAt(d.log, b))];
    forall j ensures SealedIs(d, next, j) { assert SealedIs(d, sealed, j); }
  }

  lemma {:induction false} SealedFiles(crc: Checksum, store: map<nat, seq<byte>>, d: Disk, sealed: seq<Segment>, l: Log, i: int)
    requires OnDisk(crc, store, d) && |sealed| == |d.ids| - 1 && SealedIs(d, sealed, i) && l.sealed == sealed
    requires forall id :: id in store && id != d.ids[|sealed|] ==> id in l.store && l.store[id] == store[id]
    ensures SealedOk(l, View(d.log, d.starts, |d.log|, d.starts[0]), i)
  {
    if 0 <= i < |sealed| {
      assert FileIs(store, d, i) && IdPair(d.ids, i, |sealed|);
      DiskStarts(crc, store, d, i);
      DiskStarts(crc, store, d, i + 1);
    }
  }

  /** What bootstrap builds from the scanned files is a valid log over the records that survived. */
  lemma {:induction false} BootstrapValid(crc: Checksum, store: map<nat, seq<byte>>, d: Disk, sealed: seq<Segment>, last: map<TxnId, Lsn>, end: nat, l: Log)
    requires OnDisk(crc, store, d) && |sealed| == |d.ids| - 1 && d.starts[0] <= d.starts[|sealed|] <= |d.log|
    requires Scanned(d, |sealed|, sealed, last, end)
    requires l == Log(l.store, sealed, d.ids[|sealed|], LsnAt(d.log, d.starts[|sealed|]), [], LsnAt(d.log, |d.log|), LsnAt(d.log, |d.log|),
                      LastMap(d.log[d.starts[0]..]))
    requires l.store == store[l.activeId := SegmentBytes(d.log, d.starts[|sealed|], |d.log|)]
    ensures Valid(crc, l, View(d.log, d.starts, |d.log|, d.starts[0]))
  {
    var g := View(d.log, d.starts, |d.log|, d.starts[0]);
    assert d.log[|d.log|..] == [];
    forall i ensures SealedOk(l, g, i) {
      assert SealedIs(d, sealed, i);
      SealedFiles(crc, store, d, sealed, l, i);
    }
    forall i ensures IdOk(l, i) {
      if 0 <= i < |sealed| {
        assert SealedIs(d, sealed, i) && SealedIs(d, sealed, i + 1) && IdPair(d.ids, i, i + 1);
        DiskStarts(crc, store, d, i);
        DiskStarts(crc, store, d, i + 1);
      }
    }
    forall id: nat ensures FileOk(l, id) {
      if id in l.store && id != l.activeId {
        assert id in d.ids;
        var i :| 0 <= i < |d.ids| && d.ids[i] == id;
        assert SealedIs(d, sealed, i);
        DiskStarts(crc, store, d, i);
        assert l.sealed[i].id == id;
      }
    }
  }

  /** `open_with_store` opens file 0, which creates it, when there are no files. */
  function Files(store: map<nat, seq<byte>>): map<nat, seq<byte>>
  {
    if store == map[] then map[0 := []] else store
  }

  /** A store without files holds the empty log. */
  lemma {:induction false} FreshStore(crc: Checksum)
    ensures OnDisk(crc, Files(map[]), Disk([], [0], [0], false, []))
  {
  }

  /** `open_with_store` and `bootstrap`: whatever a power failure left, and on a fresh store, opening
      succeeds and the log holds exactly the whole records on disk. */
  method Bootstrap(crc: Checksum, files: map<nat, seq<byte>>, ghost d: Disk) returns (r: Option<Log>)
    requires OnDisk(crc, Files(files), d)
    ensures r.Some? && Valid(crc, r.value, View(d.log, d.starts, |d.log|, d.starts[0]))
  {
    var store := Files(files);
    var ids := SortedIds(store);
    assert ids == d.ids by {
      assert forall x :: x in ids <==> x in store;
      assert forall x :: x in d.ids <==> x in store;
      SameIds(ids, d.ids);
    }
    var sealed: seq<Segment>, last: map<TxnId, Lsn>, end: nat := [], map[], HEADER_LEN;
    var n := |ids| - 1;
    DiskStarts(crc, store, d, 0);
    assert d.log[d.starts[0]..d.starts[0]] == [];
    for i := 0 to n
      invariant d.starts[0] <= d.starts[i] <= |d.log| && Scanned(d, i, sealed, last, end)
    {
      DiskStarts(crc, store, d, i);
      DiskStarts(crc, store, d, i + 1);
      var ok, start, more, stop := ScanSealed(crc, store, d, i, ids[i]);
      if !ok { return None; }
      ScannedMore(crc, store, d, i, sealed, last, end, more);
      sealed, last, end := sealed + [Segment(ids[i], start)], last + more, stop;
    }
    r := OpenActive(crc, store, d, sealed, last, end, ids[n]);
  }

  method OpenActive(crc: Checksum, store: map<nat, seq<byte>>, ghost d: Disk, sealed: seq<Segment>, last: map<TxnId, Lsn>, end: nat, id: nat)
    returns (r: Option<Log>)
    requires OnDisk(crc, store, d) && |sealed| == |d.ids| - 1 && id == d.ids[|sealed|] && id in store
    requires d.starts[0] <= d.starts[|sealed|] <= |d.log| && Scanned(d, |sealed|, sealed, last, end)
    ensures r.Some? && Valid(crc, r.value, View(d.log, d.starts, |d.log|, d.starts[0]))
  {
    if |store[id]| < HEADER_LEN {
      HeaderlessEnd(crc, store, d, end);
      var l := Log(store[id := Header(end)], sealed, id, end, [], end, end, last);
      BootstrapValid(crc, store, d, sealed, last, end, l);
      return Some(l);
    }
    r := OpenWhole(crc, store, d, sealed, last, end, id);
  }

  method OpenWhole(crc: Checksum, store: map<nat, seq<byte>>, ghost d: Disk, sealed: seq<Segment>, last: map<TxnId, Lsn>, ghost end: nat, id: nat)
    returns (r: Option<Log>)
    requires OnDisk(crc, store, d) && |sealed| == |d.ids| - 1 && id == d.ids[|sealed|] && id in store && HEADER_LEN <= |store[id]|
    requires d.starts[0] <= d.starts[|sealed|] <= |d.log| && Scanned(d, |sealed|, sealed, last, end)
    ensures r.Some? && Valid(crc, r.value, View(d.log, d.starts, |d.log|, d.starts[0]))
  {
    var b := store[id];
    ghost var a := d.starts[|sealed|];
    ghost var part := d.log[a..];
    WholeActive(crc, store, d, b);
    var h := ReadHeader(b);
    if h.None? { return None; }
    var pos, more := ScanRecords(crc, b, Header(LsnAt(d.log, a)), part, d.tail);
    WholeEnd(crc, d, a, b, pos, last, more);
    var next := h.value + (pos - HEADER_LEN);
    var l := Log(store[id := b[..pos]], sealed, id, h.value, [], next, next, last + more);
    BootstrapValid(crc, store, d, sealed, last, end, l);
    return Some(l);
  }

  lemma {:induction false} WholeActive(crc: Checksum, store: map<nat, seq<byte>>, d: Disk, b: seq<byte>)
    requires OnDisk(crc, store, d) && b == store[d.ids[|d.ids| - 1]] && HEADER_LEN <= |b|
    ensures var a := d.starts[|d.ids| - 1];
            && a <= |d.log| && ReadHeader(b) == Some(LsnAt(d.log, a))
            && b == Header(LsnAt(d.log, a)) + Concat(d.log[a..]) + d.tail && Torn(crc, d.tail)
            && forall i :: 0 <= i < |d.log[a..]| ==> EntryOk(crc, d.log[a..][i])
  {
    var n := |d.ids| - 1;
    DiskStarts(crc, store, d, n);
    LastFile(crc, store, d, b);
    SliceOk(crc, d.log, d.starts[n], |d.log|);
    WholeBytes(d.log, d.starts[n]);
  }

  lemma {:induction false} LastFile(crc: Checksum, store: map<nat, seq<byte>>, d: Disk, b: seq<byte>)
    requires 0 < |d.ids| == |d.starts| && LastFileIs(crc, store, d) && b == store[d.ids[|d.ids| - 1]] && HEADER_LEN <= |b|
    requires LsnAt(d.log, d.starts[|d.ids| - 1]) < 0x1_0000_0000_0000_0000
    ensures var a := d.starts[|d.ids| - 1];
            ReadHeader(b) == Some(LsnAt(d.log, a)) && b == Header(LsnAt(d.log, a)) + Concat(d.log[a..]) + d.tail && Torn(crc, d.tail)
  {
    var a := d.starts[|d.ids| - 1];
    WholeBytes(d.log, a);
    var h, bytes := Header(LsnAt(d.log, a)), Concat(d.log[a..]);
    HeaderReads(LsnAt(d.log, a), bytes + d.tail);
    Joined(h, bytes, d.tail);
    assert b == h + bytes + d.tail;
  }

  lemma {:induction false} WholeBytes(log: seq<Entry>, a: nat)
    requires a <= |log|
    ensures log[a..|log|] == log[a..] && SegmentBytes(log, a, |log|) == Header(LsnAt(log, a)) + Concat(log[a..])
  {
  }

  lemma {:induction false} Joined(a: seq<byte>, b: seq<byte>, c: seq<byte>)
    ensures a + b + c == a + (b + c)
  {
  }

  lemma {:induction false} WholeEnd(crc: Checksum, d: Disk, a: nat, b: seq<byte>, pos: nat, last: map<TxnId, Lsn>, more: map<TxnId, Lsn>)
    requires d.starts != [] && d.starts[0] <= a <= |d.log| && b == Header(LsnAt(d.log, a)) + Concat(d.log[a..]) + d.tail
    requires pos == HEADER_LEN + |Concat(d.log[a..])| && last == LastMap(d.log[d.starts[0]..a]) && more == LastMap(d.log[a..])
    ensures b[..pos] == SegmentBytes(d.log, a, |d.log|) && LsnAt(d.log, |d.log|) == LsnAt(d.log, a) + (pos - HEADER_LEN)
    ensures last + more == LastMap(d.log[d.starts[0]..])
  {
    assert d.log[a..|d.log|] == d.log[a..];
    LsnGrows(d.log, a, |d.log|);
    LastMapJoin(d.log[d.starts[0]..a], d.log[a..]);
    assert d.log[d.starts[0]..a] + d.log[a..] == d.log[d.starts[0]..];
  }

  lemma {:induction false} HeaderlessEnd(crc: Checksum, store: map<nat, seq<byte>>, d: Disk, end: nat)
    requires OnDisk(crc, store, d) && |store[d.ids[|d.ids| - 1]]| < HEADER_LEN && d.starts[0] <= d.starts[|d.ids| - 1] <= |d.log|
    requires if |d.ids| == 1 then end == HEADER_LEN else end == LsnAt(d.log, d.starts[|d.ids| - 1])
    ensures d.starts[|d.ids| - 1] == |d.log| && end == LsnAt(d.log, |d.log|)
    ensures SegmentBytes(d.log, |d.log|, |d.log|) == Header(end)
    ensures d.log[d.starts[0]..d.starts[|d.ids| - 1]] == d.log[d.starts[0]..]
  {
    assert d.log[|d.log|..|d.log|] == [];
  }

  // ---- The log manager ----

  datatype Outcome = Done | PowerLost

  function PrevOf(l: Log, txn: TxnId): Lsn
  {
    if txn in l.lastLsn then l.lastLsn[txn] else 0
  }

  class LogManager {
    const crc: Checksum
    const target: nat  // target segment size
    var l: Log
    ghost var g: View
    ghost var d: Disk  // what is on disk, once power has been lost

    /** Open the log over whatever files there are. */
    constructor (crc: Checksum, target: nat, store: map<nat, seq<byte>>, ghost d: Disk)
      requires OnDisk(crc, Files(store), d)
      ensures Valid(this.crc, l, g) && this.crc == crc && g == View(d.log, d.starts, |d.log|, d.starts[0])
    {
      var r := Bootstrap(crc, store, d);
      this.crc, this.target := crc, target;
      l, g := r.value, View(d.log, d.starts, |d.log|, d.starts[0]);
      this.d := d;
    }

    /** `append`: the record goes to the buffer under the next LSN, chained to its transaction's last one. */
    method Append(txn: TxnId, kind: Kind) returns (lsn: Lsn)
      requires Valid(crc, l, g)
      requires Encodable(Record(l.nextLsn, PrevOf(l, txn), txn, kind))
      requires l.nextLsn + Size(Record(l.nextLsn, PrevOf(l, txn), txn, kind)) < 0x1_0000_0000_0000_0000
      modifies this
      ensures Valid(crc, l, g) && lsn == old(l.nextLsn) == LsnAt(old(g.log), |old(g.log)|)
      ensures g.starts == old(g.starts) && g.durable == old(g.durable) && |g.log| == |old(g.log)| + 1 && old(g.log) <= g.log
      ensures g.log[|old(g.log)|].rec == Record(lsn, old(PrevOf(l, txn)), txn, kind)
    {
      lsn := l.nextLsn;
      var r := Record(lsn, PrevOf(l, txn), txn, kind);
      var bytes := Encode(crc, r);
      ghost var l0, g0 := l, g;
      l := l.(buffer := l.buffer + bytes, nextLsn := l.nextLsn + |bytes|, lastLsn := l.lastLsn[txn := lsn]);
      g := g.(log := g.log + [Entry(r, bytes)]);
      AppendKeeps(crc, l0, g0, Entry(r, bytes), l, g);
    }

    /** `flush`: write and sync the buffer, then start a new segment if this one is full. */
    method Flush(upTo: Lsn) returns (o: Outcome)
      requires Valid(crc, l, g)
      modifies this
      ensures o == Done ==> Valid(crc, l, g) && g.log == old(g.log) && old(g.starts) <= g.starts && old(g.durable) <= g.durable
      ensures o == Done ==> upTo < l.durableLsn || g.durable == |g.log|
      ensures o == PowerLost ==> OnDisk(crc, l.store, d) && d.log <= old(g.log) && old(g.durable) <= |d.log|
    {
      if l.durableLsn > upTo { return Done; }
      if * {
        var k: nat :| k <= |l.buffer|;
        ghost var store := l.store[l.activeId := l.store[l.activeId] + l.buffer[..k]];
        d := TornFlush(crc, l, g, k, store);
        l := l.(store := l.store[l.activeId := l.store[l.activeId] + l.buffer[..k]]);
        return PowerLost;
      }
      ghost var l0, g0 := l, g;
      l := l.(store := l.store[l.activeId := l.store[l.activeId] + l.buffer], buffer := [], durableLsn := l.nextLsn);
      g := g.(durable := |g.log|);
      FlushKeeps(crc, l0, g0, l, g);
      o := Done;
      if |l.store[l.activeId]| - HEADER_LEN >= target { o := Roll(); }
    }

    /** `roll_segment`. */
    method Roll() returns (o: Outcome)
      requires Valid(crc, l, g) && g.durable == |g.log|
      modifies this
      ensures o == Done ==> Valid(crc, l, g) && g == old(g).(starts := old(g.starts) + [|g.log|]) && l.durableLsn == old(l.durableLsn)
      ensures o == PowerLost ==> OnDisk(crc, l.store, d) && d.log == old(g.log)
    {
      if * {
        var k: nat :| k <= HEADER_LEN;
        ghost var store := l.store[l.activeId + 1 := Header(l.nextLsn)[..k]];
        d := TornRoll(crc, l, g, k, store);
        l := l.(store := l.store[l.activeId + 1 := Header(l.nextLsn)[..k]]);
        return PowerLost;
      }
      ghost var l0, g0 := l, g;
      l, g := Rolled(l), g.(starts := g.starts + [|g.log|]);
      RollKeeps(crc, l0, g0, l, g);
      return Done;
    }

    /** `truncate_below`: whole sealed segments that end at or below the bound go, and nothing else. */
    method TruncateBelow(bound: Lsn) returns (o: Outcome)
      requires Valid(crc, l, g)
      modifies this
      ensures o == Done ==> Valid(crc, l, g) && g == old(g).(starts := g.starts) && old(g.starts[0]) <= g.starts[0]
      ensures o == Done ==> forall i: nat :: old(g.starts[0]) <= i < |g.log| && bound <= LsnAt(g.log, i) ==> g.starts[0] <= i
      ensures o == Done && l.sealed != [] ==> SegmentEnd(l, 0) > bound
      ensures o == PowerLost ==> OnDisk(crc, l.store, d) && d.log <= old(g.log) && old(g.durable) <= |d.log|
    {
      var keep := 0;
      while keep < |l.sealed| && SegmentEnd(l, keep) <= bound
        invariant keep <= |l.sealed| && (keep > 0 ==> SegmentEnd(l, keep - 1) <= bound)
      {
        keep := keep + 1;
      }
      if * {
        var gone: nat :| gone <= keep;
        DropKeeps(crc, l, g, gone, Dropped(l, gone), g.(starts := g.starts[gone..]));
        l, g := Dropped(l, gone), g.(starts := g.starts[gone..]);
        d := AtRest(crc, l, g);
        return PowerLost;
      }
      TruncateKeepsFrom(crc, l, g, keep, bound);
      DropKeeps(crc, l, g, keep, Dropped(l, keep), g.(starts := g.starts[keep..]));
      l, g := Dropped(l, keep), g.(starts := g.starts[keep..]);
      return Done;
    }

    /** A power failure between operations, then opening again. */
    method LosePower()
      requires Valid(crc, l, g)
      modifies this
      ensures OnDisk(crc, l.store, d) && d.log <= old(g.log) && old(g.durable) <= |d.log| && d.starts == old(g.starts)
    {
      d := AtRest(crc, l, g);
    }

    method Reopen()
      requires OnDisk(crc, l.store, d)
      modifies this
      ensures Valid(crc, l, g) && g == View(old(d.log), old(d.starts), |old(d.log)|, old(d.starts)[0])
    {
      assert l.store.Keys == (set id | id in d.ids) && d.ids[0] in d.ids;
      var r := Bootstrap(crc, l.store, d);
      l, g := r.value, View(d.log, d.starts, |d.log|, d.starts[0]);
    }
  }

  lemma {:induction false} TruncateKeepsFrom(crc: Checksum, l: Log, g: View, keep: nat, bound: Lsn)
    requires Valid(crc, l, g) && keep <= |l.sealed| && (keep > 0 ==> SegmentEnd(l, keep - 1) <= bound)
    ensures g.starts[0] <= g.starts[keep] <= |g.log|
    ensures forall i: nat :: g.starts[0] <= i < |g.log| && bound <= LsnAt(g.log, i) ==> g.starts[keep] <= i
  {
    assert SealedOk(l, g, keep) && SealedOk(l, g, keep - 1) && Ordered(g.starts, 0, keep);
    forall i: nat | g.starts[0] <= i < |g.log| && bound <= LsnAt(g.log, i) ensures g.starts[keep] <= i {
      LsnOrder(crc, g.log, g.starts[keep], i);
    }
  }

  // ---- Iterating ----

  /** Pending segment `j` of an iterator holds the records between its marks. */
  predicate PendingOk(store: map<nat, seq<byte>>, log: seq<Entry>, pending: seq<nat>, marks: seq<nat>, j: int)
  {
    0 <= j < |pending| && |marks| == |pending| + 1 ==>
      && marks[j] <= marks[j + 1] <= |log|
      && pending[j] in store && store[pending[j]] == SegmentBytes(log, marks[j], marks[j + 1])
  }

  /** Record `at` is the next one in `current`, whose records are `part`, the log from `start` on. */
  ghost predicate InPart(log: seq<Entry>, part: seq<Entry>, start: nat, at: nat, head: seq<byte>, current: seq<byte>, pos: nat)
  {
    && start <= at <= start + |part| <= |log| && part == log[start..start + |part|]
    && current == head + Concat(part) && pos == |head| + |Concat(part[..at - start])|
  }

  predicate BelowAt(log: seq<Entry>, lo: nat, hi: int, lsn: Lsn, i: nat)
  {
    lo <= i < hi && i < |log| ==> log[i].rec.lsn < lsn
  }

  /** The records between two positions are below the LSN. */
  ghost predicate AllBelow(log: seq<Entry>, lo: nat, hi: int, lsn: Lsn)
  {
    forall i :: BelowAt(log, lo, hi, lsn, i)
  }

  lemma {:induction false} OneMoreBelow(log: seq<Entry>, lo: nat, hi: nat, lsn: Lsn)
    requires AllBelow(log, lo, hi, lsn) && hi < |log| && log[hi].rec.lsn < lsn
    ensures AllBelow(log, lo, hi + 1, lsn)
  {
    var more := hi + 1;
    forall i: nat ensures BelowAt(log, lo, more, lsn, i) { assert BelowAt(log, lo, hi, lsn, i); }
  }

  /** What is still to be loaded begins at `end`. */
  ghost predicate RestOk(log: seq<Entry>, pending: seq<nat>, marks: seq<nat>, tail: Option<seq<byte>>, end: nat)
  {
    match tail
    case None => pending == [] && end == |log|
    case Some(b) =>
      && |marks| == |pending| + 1 && marks[0] == end && marks[|pending|] <= |log| && b == Concat(log[marks[|pending|]..])
  }

  lemma {:induction false} NextInPart(log: seq<Entry>, part: seq<Entry>, start: nat, at: nat, head: seq<byte>, current: seq<byte>, pos: nat)
    requires InPart(log, part, start, at, head, current, pos) && at < start + |part|
    ensures part[at - start] == log[at]
    ensures InPart(log, part, start, at + 1, head, current, pos + |log[at].bytes|)
  {
    OneMore(part, at - start);
  }

  lemma {:induction false} PendingLess(store: map<nat, seq<byte>>, log: seq<Entry>, pending: seq<nat>, marks: seq<nat>, tail: Option<seq<byte>>)
    requires pending != [] && marks != [] && (forall j :: PendingOk(store, log, pending, marks, j)) && RestOk(log, pending, marks, tail, marks[0])
    ensures forall j :: PendingOk(store, log, pending[1..], marks[1..], j)
    ensures RestOk(log, pending[1..], marks[1..], tail, marks[1])
  {
    var p, m := pending[1..], marks[1..];
    forall j ensures PendingOk(store, log, p, m, j) { assert PendingOk(store, log, pending, marks, j + 1); }
  }

  /** Decode at the position of record `at` and step past it. */
  method TakeAt(crc: Checksum, current: seq<byte>, pos: nat, ghost log: seq<Entry>, ghost part: seq<Entry>, ghost start: nat, ghost at: nat, ghost head: seq<byte>)
    returns (d: Option<Record>, pos': nat, ghost at': nat)
    requires InPart(log, part, start, at, head, current, pos) && (at < start + |part| ==> EntryOk(crc, log[at]))
    ensures InPart(log, part, start, at', head, current, pos') && at' == (if d.Some? then at + 1 else at)
    ensures if d.Some? then at < |log| && at < start + |part| && d.value == log[at].rec else at == start + |part|
  {
    if at < start + |part| { NextInPart(log, part, start, at, head, current, pos); }
    assert current == head + Concat(part) + [];
    var r := DecodeNext(crc, current, pos, head, part, [], at - start);
    if r.None? { return None, pos, at; }
    return Some(r.value.0), pos + r.value.1, at + 1;
  }

  lemma {:induction false} BeginsAt(log: seq<Entry>, k: nat)
    requires k <= |log|
    ensures InPart(log, [], k, k, [], [], 0)
  {
    assert log[k..k] == [];
  }

  lemma {:induction false} PartLoaded(log: seq<Entry>, i: nat, j: nat, head: seq<byte>, current: seq<byte>)
    requires i <= j <= |log| && current == head + Concat(log[i..j])
    ensures InPart(log, log[i..j], i, i, head, current, |head|)
  {
  }

  /** The first pending segment becomes the current one. */
  lemma {:induction false} SegmentLoaded(store: map<nat, seq<byte>>, log: seq<Entry>, pending: seq<nat>, marks: seq<nat>, tail: Option<seq<byte>>, at: nat)
    requires pending != [] && (forall j :: PendingOk(store, log, pending, marks, j)) && RestOk(log, pending, marks, tail, at)
    ensures |marks| == |pending| + 1 && marks[0] == at <= marks[1] <= |log| && pending[0] in store
    ensures InPart(log, log[at..marks[1]], at, at, Header(LsnAt(log, at)), store[pending[0]], HEADER_LEN)
    ensures forall j :: PendingOk(store, log, pending[1..], marks[1..], j)
    ensures RestOk(log, pending[1..], marks[1..], tail, marks[1])
  {
    assert PendingOk(store, log, pending, marks, 0);
    PartLoaded(log, marks[0], marks[1], Header(LsnAt(log, marks[0])), store[pending[0]]);
    PendingLess(store, log, pending, marks, tail);
  }

  datatype Clause = Position | Rest

  /** `LogIterator`: the sealed segments still to read, then the active segment with the buffer. */
  class LogIterator {
    const crc: Checksum
    const store: map<nat, seq<byte>>
    const from: Lsn
    var pending: seq<nat>
    var tail: Option<seq<byte>>
    var current: seq<byte>
    var pos: nat
    ghost const log: seq<Entry>
    ghost var marks: seq<nat>    // first record of each pending segment, then of the tail
    ghost var head: seq<byte>    // what precedes the records in `current`
    ghost var part: seq<Entry>   // the records in `current`
    ghost var start: nat         // where they stand in the log
    ghost var at: nat            // the next record

    ghost predicate Holds(clause: Clause)
      reads this
    {
      match clause
      case Position => Numbered(crc, log) && InPart(log, part, start, at, head, current, pos)
      case Rest => (forall j :: PendingOk(store, log, pending, marks, j)) && RestOk(log, pending, marks, tail, start + |part|)
    }

    ghost predicate Ready()
      reads this
    {
      forall clause :: Holds(clause)
    }

    /** `iter_from`. */
    constructor (crc: Checksum, l: Log, from: Lsn, ghost g: View)
      requires Valid(crc, l, g)
      ensures Ready() && log == g.log && this.from == (if from < HEADER_LEN then HEADER_LEN else from)
      ensures g.starts[0] <= at <= |g.log|
      ensures AllBelow(g.log, g.starts[0], at, this.from)
    {
      var lower := if from < HEADER_LEN then HEADER_LEN else from;
      var s := FindSealed(l, lower);
      var k: nat := if s == -1 then 0 else s;
      SkipsBelow(crc, l, g, lower, k, s);
      PendingFrom(crc, l, g, k);
      BeginsAt(g.log, g.starts[k]);
      this.crc, this.store, this.from, this.log := crc, l.store, lower, g.log;
      pending := Ids(l)[k..|l.sealed|];
      tail := Some(l.store[l.activeId][HEADER_LEN..] + l.buffer);
      current, pos := [], 0;
      marks, head, part, start, at := g.starts[k..], [], [], g.starts[k], g.starts[k];
    }

    /** `next`: the next record at or above `from`, in order; at the end every record has been passed. */
    method Next() returns (r: Option<Record>)
      requires Ready()
      modifies this
      ensures Ready() && old(at) <= at <= |log|
      ensures r.Some? ==> old(at) < at && r.value == log[at - 1].rec && from <= r.value.lsn
      ensures r.None? ==> at == |log|
      ensures AllBelow(log, old(at), if r.Some? then at - 1 else at, from)
    {
      ghost var first := at;
      while true
        invariant Ready() && first <= at && AllBelow(log, first, at, from)
        decreases |log| - at, |pending|, tail.Some?
      {
        ghost var here := at;
        var d, done := Advance();
        if done { return None; }
        if d.Some? {
          if from <= d.value.lsn { return d; }
          OneMoreBelow(log, first, here, from);
        }
      }
    }

    /** One turn of the loop: take a record, or load more bytes. */
    method Advance() returns (d: Option<Record>, done: bool)
      requires Ready()
      modifies this
      ensures Ready() && at <= |log| && (done ==> d.None? && at == |log|)
      ensures if d.Some? then at == old(at) + 1 && old(at) < |log| && d.value == log[old(at)].rec else at == old(at)
      ensures d.None? && !done ==> |pending| < |old(pending)| || (|pending| == |old(pending)| && old(tail.Some?) && tail.None?)
    {
      d := Take();
      if d.Some? { return d, false; }
      var more := LoadMore();
      return None, !more;
    }

    /** Move on to the next segment, or to the active one with the buffer. */
    method LoadMore() returns (more: bool)
      requires Ready() && at == start + |part|
      modifies this
      ensures Ready() && at == old(at) && (!more ==> at == |log|)
      ensures more ==> |pending| < |old(pending)| || (|pending| == |old(pending)| && old(tail.Some?) && tail.None?)
    {
      if pending != [] {
        LoadSegment();
        return true;
      }
      if tail.None? {
        assert Holds(Rest);
        return false;
      }
      LoadTail();
      return true;
    }

    /** The record at the current position, if the current bytes hold another one. */
    method Take() returns (d: Option<Record>)
      requires Ready()
      modifies this`pos, this`at
      ensures Ready() && at == (if d.Some? then old(at) + 1 else old(at)) && at <= |log|
      ensures if d.Some? then old(at) < |log| && d.value == log[old(at)].rec else at == start + |part|
    {
      assert Holds(Position) && Holds(Rest);
      if at < start + |part| { assert RecordOk(crc, log, at); }
      d, pos, at := TakeAt(crc, current, pos, log, part, start, at, head);
    }

    method LoadSegment()
      requires Ready() && at == start + |part| && pending != []
      modifies this
      ensures Ready() && at == old(at) && |pending| < |old(pending)|
    {
      assert Holds(Position) && Holds(Rest);
      SegmentLoaded(store, log, pending, marks, tail, at);
      current, pos, pending := store[pending[0]], HEADER_LEN, pending[1..];
      head, part, start, marks := Header(LsnAt(log, marks[0])), log[marks[0]..marks[1]], marks[0], marks[1..];
    }

    method LoadTail()
      requires Ready() && at == start + |part| && pending == [] && tail.Some?
      modifies this
      ensures Ready() && at == old(at) && pending == [] && tail.None?
    {
      assert Holds(Position) && Holds(Rest);
      assert log[marks[0]..] == log[marks[0]..|log|];
      PartLoaded(log, marks[0], |log|, [], tail.value);
      current, pos := tail.value, 0;
      head, part, start := [], log[marks[0]..|log|], marks[0];
      tail := None;
    }
  }

  lemma {:induction false} ActiveTail(l: Log, g: View)
    requires ActiveOk(l, g)
    ensures HEADER_LEN <= |l.store[l.activeId]|
    ensures l.store[l.activeId][HEADER_LEN..] + l.buffer == Concat(g.log[g.starts[|l.sealed|]..])
  {
    var a, n := g.starts[|l.sealed|], g.durable;
    ConcatSplit(g.log[a..], n - a);
    assert g.log[a..][..n - a] == g.log[a..n] && g.log[a..][n - a..] == g.log[n..];
    assert l.store[l.activeId][HEADER_LEN..] == Concat(g.log[a..n]);
  }

  lemma {:induction false} PendingFrom(crc: Checksum, l: Log, g: View, k: nat)
    requires Valid(crc, l, g) && k <= |l.sealed|
    ensures HEADER_LEN <= |l.store[l.activeId]|
    ensures forall j :: PendingOk(l.store, g.log, Ids(l)[k..|l.sealed|], g.starts[k..], j)
    ensures RestOk(g.log, Ids(l)[k..|l.sealed|], g.starts[k..], Some(l.store[l.activeId][HEADER_LEN..] + l.buffer), g.starts[k])
  {
    ActiveTail(l, g);
    forall j ensures PendingOk(l.store, g.log, Ids(l)[k..|l.sealed|], g.starts[k..], j) { assert SealedOk(l, g, j + k); }
  }

  lemma {:induction false} SkipsBelow(crc: Checksum, l: Log, g: View, lower: Lsn, k: nat, s: int)
    requires Valid(crc, l, g) && -1 <= s < |l.sealed| && (0 <= s ==> l.sealed[s].start <= lower) && k == (if s == -1 then 0 else s)
    ensures g.starts[0] <= g.starts[k] <= |g.log| && k <= |l.sealed|
    ensures AllBelow(g.log, g.starts[0], g.starts[k], lower)
  {
    assert Ordered(g.starts, 0, k) && Ordered(g.starts, k, |l.sealed|) && SealedOk(l, g, k);
    var lo, hi := g.starts[0], g.starts[k];
    forall i: nat ensures BelowAt(g.log, lo, hi, lower, i) {
      if lo <= i < hi {
        assert RecordOk(crc, g.log, i);
        LsnOrder(crc, g.log, hi, i);
      }
    }
  }
}
