/** The log manager: an in-memory buffer over numbered segment files. */
module WriteAheadLog {
  import opened Bytes
  import opened LogRecords
  import opened Options
  import opened LogCodec
  import opened SegmentedLog

  datatype Segment = Segment(id: nat, start: nat)

  /** `LogBufferInner` and the files behind it. */
  datatype Log = Log(
    store: map<nat, seq<byte>>,
    sealed: seq<Segment>,
    activeId: nat,
    activeStart: nat,
    buffer: seq<byte>,
    nextLsn: nat,
    durableLsn: nat,
    lastLsn: map<TxnId, Lsn>)

  /** What the log stands for: every record appended and not lost, the first record of each segment,
      how many are on disk, and where the table of newest LSNs begins. */
  datatype View = View(log: seq<Entry>, starts: seq<nat>, durable: nat, from: nat)

  ghost predicate Ascending(starts: seq<nat>)
  {
    forall i, j :: Ordered(starts, i, j)
  }

  predicate Ordered(starts: seq<nat>, i: int, j: int)
  {
    0 <= i <= j < |starts| ==> starts[i] <= starts[j]
  }

  function NextId(l: Log, i: nat): nat
  {
    if i + 1 < |l.sealed| then l.sealed[i + 1].id else l.activeId
  }

  predicate IdOk(l: Log, i: int)
  {
    0 <= i < |l.sealed| ==> l.sealed[i].id < NextId(l, i)
  }

  /** Sealed segment `i` holds exactly its records. */
  predicate SealedOk(l: Log, g: View, i: int)
  {
    0 <= i < |l.sealed| ==>
      && i + 1 < |g.starts| && g.starts[i] <= g.starts[i + 1] <= |g.log|
      && l.sealed[i].start == LsnAt(g.log, g.starts[i])
      && l.sealed[i].id in l.store && l.store[l.sealed[i].id] == SegmentBytes(g.log, g.starts[i], g.starts[i + 1])
  }

  ghost predicate FileOk(l: Log, id: nat)
  {
    id in l.store ==> id == l.activeId || exists i :: 0 <= i < |l.sealed| && l.sealed[i].id == id
  }

  /** The active segment, the buffer and the counters. */
  predicate ActiveOk(l: Log, g: View)
  {
    && |g.starts| == |l.sealed| + 1 && g.starts[|l.sealed|] <= g.durable <= |g.log| && g.from <= g.starts[0] <= g.starts[|l.sealed|]
    && l.activeStart == LsnAt(g.log, g.starts[|l.sealed|])
    && l.activeId in l.store && l.store[l.activeId] == SegmentBytes(g.log, g.starts[|l.sealed|], g.durable)
    && l.buffer == Concat(g.log[g.durable..])
    && l.nextLsn == LsnAt(g.log, |g.log|) < 0x1_0000_0000_0000_0000 && l.durableLsn == LsnAt(g.log, g.durable)
    && l.lastLsn == LastMap(g.log[g.from..])
  }

  ghost predicate Valid(crc: Checksum, l: Log, g: View)
  {
    && Numbered(crc, g.log) && Ascending(g.starts) && ActiveOk(l, g)
    && (forall i :: IdOk(l, i)) && (forall i :: SealedOk(l, g, i)) && (forall id :: FileOk(l, id))
  }

  // ---- Appending ----

  lemma {:induction false} SameSegment(log: seq<Entry>, more: seq<Entry>, i: nat, j: nat)
    requires log <= more && i <= j <= |log|
    ensures LsnAt(more, i) == LsnAt(log, i) && SegmentBytes(more, i, j) == SegmentBytes(log, i, j)
  {
    assert more[..i] == log[..i] && more[i..j] == log[i..j];
  }

  lemma {:induction false} SealedGrows(l: Log, g: View, l': Log, g': View, i: int)
    requires SealedOk(l, g, i) && g.log <= g'.log && g'.starts == g.starts && l'.sealed == l.sealed
    requires forall id :: id in l.store && id != l.activeId ==> id in l'.store && l'.store[id] == l.store[id]
    requires 0 <= i < |l.sealed| ==> l.sealed[i].id != l.activeId
    ensures SealedOk(l', g', i)
  {
    if 0 <= i < |l.sealed| { SameSegment(g.log, g'.log, g.starts[i], g.starts[i + 1]); }
  }

  /** Sealed ids lie below the active one. */
  lemma {:induction false} SealedBelowActive(crc: Checksum, l: Log, g: View, i: nat)
    requires Valid(crc, l, g) && i < |l.sealed|
    ensures l.sealed[i].id < l.activeId
    decreases |l.sealed| - i
  {
    assert IdOk(l, i);
    if i + 1 < |l.sealed| { SealedBelowActive(crc, l, g, i + 1); }
  }

  lemma {:induction false} AppendActive(l: Log, g: View, e: Entry, l': Log, g': View)
    requires ActiveOk(l, g) && e.rec.lsn == l.nextLsn && l.nextLsn + |e.bytes| < 0x1_0000_0000_0000_0000
    requires l' == l.(buffer := l.buffer + e.bytes, nextLsn := l.nextLsn + |e.bytes|, lastLsn := l.lastLsn[e.rec.txn := e.rec.lsn])
    requires g' == g.(log := g.log + [e])
    ensures ActiveOk(l', g')
  {
    SameSegment(g.log, g'.log, g.starts[|l.sealed|], g.durable);
    SameSegment(g.log, g'.log, g.durable, g.durable);
    TailMore(g.log, e, g.durable);
    TailMore(g.log, e, g.from);
    TailMore(g.log, e, 0);
    assert g'.log[..|g'.log|] == g'.log[0..] && g.log[..|g.log|] == g.log[0..];
  }

  lemma {:induction false} TailMore(log: seq<Entry>, e: Entry, i: nat)
    requires i <= |log|
    ensures Concat((log + [e])[i..]) == Concat(log[i..]) + e.bytes
    ensures LastMap((log + [e])[i..]) == LastMap(log[i..])[e.rec.txn := e.rec.lsn]
  {
    var t := (log + [e])[i..];
    assert t[..|t| - 1] == log[i..] && t[|t| - 1] == e;
  }

  lemma {:induction false} AppendKeeps(crc: Checksum, l: Log, g: View, e: Entry, l': Log, g': View)
    requires Valid(crc, l, g) && EntryOk(crc, e) && e.rec.lsn == l.nextLsn && l.nextLsn + |e.bytes| < 0x1_0000_0000_0000_0000
    requires l' == l.(buffer := l.buffer + e.bytes, nextLsn := l.nextLsn + |e.bytes|, lastLsn := l.lastLsn[e.rec.txn := e.rec.lsn])
    requires g' == g.(log := g.log + [e])
    ensures Valid(crc, l', g')
  {
    NumberedMore(crc, g.log, e);
    AppendActive(l, g, e, l', g');
    forall i ensures IdOk(l', i) { assert IdOk(l, i); }
    forall i ensures SealedOk(l', g', i) {
      assert SealedOk(l, g, i);
      if 0 <= i < |l.sealed| { SealedBelowActive(crc, l, g, i); }
      SealedGrows(l, g, l', g', i);
    }
    forall id ensures FileOk(l', id) { assert FileOk(l, id); }
  }

  // ---- Flushing and rolling ----

  lemma {:induction false} SegmentSplit(log: seq<Entry>, i: nat, j: nat, k: nat)
    requires i <= j <= k <= |log|
    ensures SegmentBytes(log, i, k) == SegmentBytes(log, i, j) + Concat(log[j..k])
  {
    ConcatSplit(log[i..k], j - i);
    Slices(log, i, j, k);
  }

  lemma {:induction false} Slices(log: seq<Entry>, i: nat, j: nat, k: nat)
    requires i <= j <= k <= |log|
    ensures log[i..k][..j - i] == log[i..j] && log[i..k][j - i..] == log[j..k]
  {
    forall x | 0 <= x < j - i ensures log[i..k][..j - i][x] == log[i..j][x] { }
    forall x | 0 <= x < k - j ensures log[i..k][j - i..][x] == log[j..k][x] { }
  }

  lemma {:induction false} FlushKeeps(crc: Checksum, l: Log, g: View, l': Log, g': View)
    requires Valid(crc, l, g)
    requires l' == l.(store := l.store[l.activeId := l.store[l.activeId] + l.buffer], buffer := [], durableLsn := l.nextLsn)
    requires g' == g.(durable := |g.log|)
    ensures Valid(crc, l', g')
  {
    SegmentSplit(g.log, g.starts[|l.sealed|], g.durable, |g.log|);
    assert g.log[g.durable..|g.log|] == g.log[g.durable..] && g.log[|g.log|..] == [];
    forall i ensures IdOk(l', i) { assert IdOk(l, i); }
    forall i ensures SealedOk(l', g', i) {
      assert SealedOk(l, g, i);
      if 0 <= i < |l.sealed| { SealedBelowActive(crc, l, g, i); }
      SealedGrows(l, g, l', g', i);
    }
    forall id ensures FileOk(l', id) { assert FileOk(l, id); }
  }

  /** What `roll_segment` writes once the new file has its header. */
  function Rolled(l: Log): Log
  {
    l.(store := l.store[l.activeId + 1 := Header(l.nextLsn)], sealed := l.sealed + [Segment(l.activeId, l.activeStart)],
       activeId := l.activeId + 1, activeStart := l.nextLsn)
  }

  lemma {:induction false} RollKeeps(crc: Checksum, l: Log, g: View, l': Log, g': View)
    requires Valid(crc, l, g) && g.durable == |g.log| && l' == Rolled(l) && g' == g.(starts := g.starts + [|g.log|])
    ensures Valid(crc, l', g')
  {
    var n := |l.sealed|;
    assert g.log[|g.log|..|g.log|] == [] && SegmentBytes(g.log, |g.log|, |g.log|) == Header(l.nextLsn);
    forall i, j ensures Ordered(g'.starts, i, j) { assert Ordered(g.starts, i, j) && Ordered(g.starts, i, n); }
    forall i ensures IdOk(l', i) { assert IdOk(l, i); }
    forall i ensures SealedOk(l', g', i) {
      assert SealedOk(l, g, i);
      if 0 <= i < n { SealedBelowActive(crc, l, g, i); }
    }
    forall id ensures FileOk(l', id) {
      assert FileOk(l, id);
      if id in l.store {
        if id == l.activeId {
          assert l'.sealed[n].id == id;
        } else {
          var i :| 0 <= i < n && l.sealed[i].id == id;
          assert l'.sealed[i].id == id;
        }
      }
    }
  }

  // ---- Truncating ----

  /** Sealed segments from the first one on that end at or below the bound. */
  function SegmentEnd(l: Log, i: nat): nat
  {
    if i + 1 < |l.sealed| then l.sealed[i + 1].start else l.activeStart
  }

  /** The first `k` sealed segments dropped from the table, and their files removed. */
  function Dropped(l: Log, k: nat): Log
    requires k <= |l.sealed|
  {
    var gone := set i | 0 <= i < k :: l.sealed[i].id;
    l.(sealed := l.sealed[k..], store := l.store - gone)
  }

  lemma {:induction false} IdsGrow(crc: Checksum, l: Log, g: View, i: nat, j: nat)
    requires Valid(crc, l, g) && i < j < |l.sealed|
    ensures l.sealed[i].id < l.sealed[j].id
    decreases j - i
  {
    assert IdOk(l, i);
    if i + 1 < j { IdsGrow(crc, l, g, i + 1, j); }
  }

  lemma {:induction false} DropKeeps(crc: Checksum, l: Log, g: View, k: nat, l': Log, g': View)
    requires Valid(crc, l, g) && k <= |l.sealed| && l' == Dropped(l, k) && g' == g.(starts := g.starts[k..])
    ensures Valid(crc, l', g')
  {
    assert Ordered(g.starts, 0, k) && Ordered(g.starts, k, |l.sealed|);
    forall i | 0 <= i < |l.sealed| ensures l.sealed[i].id < l.activeId { SealedBelowActive(crc, l, g, i); }
    forall i, j ensures Ordered(g'.starts, i, j) { assert Ordered(g.starts, i + k, j + k); }
    forall i ensures IdOk(l', i) { assert IdOk(l, i + k); }
    forall i ensures SealedOk(l', g', i) {
      assert SealedOk(l, g, i + k);
      if 0 <= i < |l'.sealed| {
        forall j | 0 <= j < k ensures l.sealed[j].id != l.sealed[i + k].id { IdsGrow(crc, l, g, j, i + k); }
      }
    }
    forall id ensures FileOk(l', id) {
      assert FileOk(l, id);
      if id in l'.store && id != l.activeId {
        var i :| 0 <= i < |l.sealed| && l.sealed[i].id == id;
        assert i >= k;
        assert l'.sealed[i - k].id == id;
      }
    }
  }

  // ---- What a power failure can leave ----

  /** Segment files on disk. The last one may lack a whole header, or end in a torn record. */
  datatype Disk = Disk(log: seq<Entry>, ids: seq<nat>, starts: seq<nat>, whole: bool, tail: seq<byte>)

  predicate IdPair(ids: seq<nat>, i: int, j: int)
  {
    0 <= i < j < |ids| ==> ids[i] < ids[j]
  }

  predicate FileIs(store: map<nat, seq<byte>>, d: Disk, i: int)
  {
    0 <= i < |d.ids| - 1 && |d.starts| == |d.ids| ==>
      && d.starts[i] <= d.starts[i + 1] <= |d.log|
      && d.ids[i] in store && store[d.ids[i]] == SegmentBytes(d.log, d.starts[i], d.starts[i + 1])
  }

  ghost predicate LastFileIs(crc: Checksum, store: map<nat, seq<byte>>, d: Disk)
    requires 0 < |d.ids| == |d.starts|
  {
    var n := |d.ids| - 1;
    && d.starts[n] <= |d.log| && d.ids[n] in store
    && if d.whole
       then store[d.ids[n]] == SegmentBytes(d.log, d.starts[n], |d.log|) + d.tail && Torn(crc, d.tail)
       else |store[d.ids[n]]| < HEADER_LEN && d.starts[n] == |d.log| && (n == 0 ==> d.log == [])
  }

  ghost predicate OnDisk(crc: Checksum, store: map<nat, seq<byte>>, d: Disk)
  {
    && Numbered(crc, d.log) && LsnAt(d.log, |d.log|) < 0x1_0000_0000_0000_0000
    && 0 < |d.ids| == |d.starts| && Ascending(d.starts)
    && (forall i, j :: IdPair(d.ids, i, j)) && (forall i :: FileIs(store, d, i)) && LastFileIs(crc, store, d)
    && store.Keys == (set id | id in d.ids)
  }

  function Ids(l: Log): (ids: seq<nat>)
    ensures |ids| == |l.sealed| + 1 && ids[|l.sealed|] == l.activeId
    ensures forall i :: 0 <= i < |l.sealed| ==> ids[i] == l.sealed[i].id
  {
    seq(|l.sealed|, i requires 0 <= i < |l.sealed| => l.sealed[i].id) + [l.activeId]
  }

  lemma {:induction false} IdsAscend(crc: Checksum, l: Log, g: View)
    requires Valid(crc, l, g)
    ensures (forall i, j :: IdPair(Ids(l), i, j)) && l.store.Keys == (set id | id in Ids(l))
  {
    var ids := Ids(l);
    forall i, j ensures IdPair(ids, i, j) {
      if 0 <= i < j < |ids| {
        if j < |l.sealed| { IdsGrow(crc, l, g, i, j); } else { SealedBelowActive(crc, l, g, i); }
      }
    }
    forall id ensures id in l.store <==> id in ids {
      assert FileOk(l, id);
      if id in ids {
        var i :| 0 <= i < |ids| && ids[i] == id;
        assert SealedOk(l, g, i);
      }
    }
  }

  lemma {:induction false} SegmentsKept(crc: Checksum, l: Log, g: View, store: map<nat, seq<byte>>, d: Disk, i: int)
    requires Valid(crc, l, g) && 0 <= i < |l.sealed| && d.ids == Ids(l) && d.starts == g.starts && d.log <= g.log && g.durable <= |d.log|
    requires l.store.Keys <= store.Keys && forall id :: id in l.store && id != l.activeId ==> store[id] == l.store[id]
    ensures FileIs(store, d, i)
  {
    assert SealedOk(l, g, i) && Ordered(g.starts, i + 1, |l.sealed|);
    SealedBelowActive(crc, l, g, i);
    SameSegment(d.log, g.log, g.starts[i], g.starts[i + 1]);
  }

  /** A power failure while the buffer is being written keeps everything durable, some more whole
      records, and part of the next. */
  lemma {:induction false} TornFlush(crc: Checksum, l: Log, g: View, k: nat, store: map<nat, seq<byte>>) returns (d: Disk)
    requires Valid(crc, l, g) && k <= |l.buffer| && store == l.store[l.activeId := l.store[l.activeId] + l.buffer[..k]]
    ensures OnDisk(crc, store, d) && d.log <= g.log && g.durable <= |d.log| && d.starts == g.starts
  {
    var rest := g.log[g.durable..];
    forall i | 0 <= i < |rest| ensures EntryOk(crc, rest[i]) { assert RecordOk(crc, g.log, g.durable + i); }
    var m, tail := PrefixOfConcat(crc, rest, k);
    d := Disk(g.log[..g.durable + m], Ids(l), g.starts, true, tail);
    TornFlushDisk(crc, l, g, k, store, m, tail, d);
  }

  lemma {:induction false} PrefixOk(crc: Checksum, log: seq<Entry>, n: nat)
    requires Numbered(crc, log) && n <= |log|
    ensures Numbered(crc, log[..n]) && LsnAt(log[..n], n) <= LsnAt(log, |log|)
  {
    NumberedPrefix(crc, log, n);
    assert log[..n][..n] == log[..n];
    LsnGrows(log, n, |log|);
  }

  lemma {:induction false} TornFlushDisk(crc: Checksum, l: Log, g: View, k: nat, store: map<nat, seq<byte>>, m: nat, tail: seq<byte>, d: Disk)
    requires Valid(crc, l, g) && k <= |l.buffer| && store == l.store[l.activeId := l.store[l.activeId] + l.buffer[..k]]
    requires g.durable + m <= |g.log| && l.buffer[..k] == Concat(g.log[g.durable..][..m]) + tail && Torn(crc, tail)
    requires d == Disk(g.log[..g.durable + m], Ids(l), g.starts, true, tail)
    ensures OnDisk(crc, store, d)
  {
    PrefixOk(crc, g.log, g.durable + m);
    TornActive(l, g, m, tail, k);
    IdsAscend(crc, l, g);
    forall i ensures FileIs(store, d, i) {
      if 0 <= i < |l.sealed| { SegmentsKept(crc, l, g, store, d, i); }
    }
  }

  lemma {:induction false} TornActive(l: Log, g: View, m: nat, tail: seq<byte>, k: nat)
    requires ActiveOk(l, g) && g.durable + m <= |g.log| && k <= |l.buffer|
    requires l.buffer[..k] == Concat(g.log[g.durable..][..m]) + tail
    ensures var n, a := g.durable + m, g.starts[|l.sealed|];
            l.store[l.activeId] + l.buffer[..k] == SegmentBytes(g.log[..n], a, n) + tail
  {
    var n, a := g.durable + m, g.starts[|l.sealed|];
    assert g.log[g.durable..][..m] == g.log[g.durable..n];
    TornBytes(g.log, a, g.durable, n, tail);
  }

  lemma {:induction false} TornBytes(log: seq<Entry>, a: nat, durable: nat, n: nat, tail: seq<byte>)
    requires a <= durable <= n <= |log|
    ensures SegmentBytes(log, a, durable) + (Concat(log[durable..n]) + tail) == SegmentBytes(log[..n], a, n) + tail
  {
    SegmentSplit(log, a, durable, n);
    SameSegment(log[..n], log, a, n);
    TailJoins(SegmentBytes(log, a, durable), Concat(log[durable..n]), tail);
  }

  lemma {:induction false} TailJoins(a: seq<byte>, b: seq<byte>, c: seq<byte>)
    ensures a + (b + c) == a + b + c
  {
  }

  /** A power failure while a new segment gets its header. */
  lemma {:induction false} TornRoll(crc: Checksum, l: Log, g: View, k: nat, store: map<nat, seq<byte>>) returns (d: Disk)
    requires Valid(crc, l, g) && g.durable == |g.log| && k <= HEADER_LEN && store == l.store[l.activeId + 1 := Header(l.nextLsn)[..k]]
    ensures OnDisk(crc, store, d) && d.log == g.log && |d.starts| == |g.starts| + 1 && d.starts[0] == g.starts[0]
  {
    var n := |l.sealed|;
    d := Disk(g.log, Ids(l) + [l.activeId + 1], g.starts + [|g.log|], k == HEADER_LEN, []);
    assert g.log[|g.log|..|g.log|] == [] && SegmentBytes(g.log, |g.log|, |g.log|) == Header(l.nextLsn);
    IdsAscend(crc, l, g);
    forall i, j ensures Ordered(d.starts, i, j) { assert Ordered(g.starts, i, j) && Ordered(g.starts, i, n); }
    forall i, j ensures IdPair(d.ids, i, j) { assert IdPair(Ids(l), i, j) && IdPair(Ids(l), i, n); }
    forall i ensures FileIs(store, d, i) {
      assert SealedOk(l, g, i);
      if 0 <= i < n { SealedBelowActive(crc, l, g, i); }
    }
    assert l.activeId + 1 in d.ids;
    forall id ensures id in store <==> id in d.ids { assert FileOk(l, id); }
  }

  /** A power failure at rest. */
  lemma {:induction false} AtRest(crc: Checksum, l: Log, g: View) returns (d: Disk)
    requires Valid(crc, l, g)
    ensures OnDisk(crc, l.store, d) && d.log <= g.log && g.durable <= |d.log| && d.starts == g.starts
  {
    assert l.buffer[..0] == [] && l.store[l.activeId] + [] == l.store[l.activeId];
    assert l.store[l.activeId := l.store[l.activeId] + l.buffer[..0]] == l.store;
    d := TornFlush(crc, l, g, 0, l.store);
  }

  // ---- Reading ----

  /** `read_record_at`: read the length, then exactly that many bytes. */
  function ReadRecordAt(crc: Checksum, b: seq<byte>, offset: nat): Option<Record>
  {
    if offset + 4 > |b| then None else
      var total := FromLe(b[offset..offset + 4]);
      if total < MIN_RECORD_LEN || offset + total > |b| then None else
        match Decode(crc, b[offset..offset + total], 0)
        case None => None
        case Some((r, _)) => Some(r)
  }

  lemma {:induction false} ReadsRecord(crc: Checksum, e: Entry, before: seq<byte>, rest: seq<byte>, b: seq<byte>, offset: nat)
    requires EntryOk(crc, e) && b == before + e.bytes + rest && offset == |before|
    ensures ReadRecordAt(crc, b, offset) == Some(e.rec)
  {
    var n := |e.bytes|;
    EncodedParts(crc, e.rec);
    Widths();
    LeRoundTrip(n, 4);
    assert b[offset..offset + 4] == e.bytes[..4];
    assert b[offset..offset + n] == [] + e.bytes + [];
    EntryDecodes(crc, e, [], [], b[offset..offset + n], 0);
  }

  /** A record of a segment is read where its LSN says. */
  lemma {:induction false} ReadsInSegment(crc: Checksum, log: seq<Entry>, a: nat, z: nat, i: nat, b: seq<byte>, offset: nat)
    requires a <= i < z <= |log| && EntryOk(crc, log[i]) && b == SegmentBytes(log, a, z)
    requires offset == HEADER_LEN + (LsnAt(log, i) - LsnAt(log, a))
    ensures ReadRecordAt(crc, b, offset) == Some(log[i].rec)
  {
    LsnGrows(log, a, i);
    RecordInSegment(log, a, z, i);
    ReadsRecord(crc, log[i], SegmentBytes(log, a, i), Concat(log[i + 1..z]), b, offset);
  }

  lemma {:induction false} RecordInSegment(log: seq<Entry>, a: nat, z: nat, i: nat)
    requires a <= i < z <= |log|
    ensures SegmentBytes(log, a, z) == SegmentBytes(log, a, i) + log[i].bytes + Concat(log[i + 1..z])
  {
    SegmentSplit(log, a, i + 1, z);
    SegmentSplit(log, a, i, i + 1);
    assert log[i..i + 1] == [log[i]];
    ConcatOne(log[i]);
  }

  lemma {:induction false} ReadsInBuffer(crc: Checksum, log: seq<Entry>, a: nat, i: nat, b: seq<byte>, offset: nat)
    requires a <= i < |log| && EntryOk(crc, log[i]) && b == Concat(log[a..]) && offset == LsnAt(log, i) - LsnAt(log, a)
    ensures Decode(crc, b, offset) == Some((log[i].rec, |log[i].bytes|))
  {
    LsnGrows(log, a, i);
    assert log[a..][..i - a] == log[a..i];
    assert b == [] + Concat(log[a..]) + [];
    DecodesIn(crc, b, offset, [], log[a..], [], i - a);
  }

  /** The record the log still holds at this LSN, if any. */
  ghost predicate IsAt(g: View, lsn: Lsn, i: nat)
  {
    g.starts != [] && g.starts[0] <= i < |g.log| && lsn == LsnAt(g.log, i)
  }

  lemma {:induction false} LsnOrder(crc: Checksum, log: seq<Entry>, i: nat, j: nat)
    requires Numbered(crc, log) && i <= |log| && j <= |log|
    ensures LsnAt(log, i) <= LsnAt(log, j) <==> i <= j
  {
    if i < j { LsnStrict(crc, log, i, j); } else if j < i { LsnStrict(crc, log, j, i); }
  }

  /** Which segment `rev().find(start <= lsn)` picks. */
  method FindSealed(l: Log, lsn: Lsn) returns (s: int)
    ensures -1 <= s < |l.sealed| && (0 <= s ==> l.sealed[s].start <= lsn)
    ensures forall j :: s < j < |l.sealed| ==> lsn < l.sealed[j].start
  {
    s := |l.sealed| - 1;
    while 0 <= s && lsn < l.sealed[s].start
      invariant -1 <= s < |l.sealed| && forall j :: s < j < |l.sealed| ==> lsn < l.sealed[j].start
    {
      s := s - 1;
    }
  }

  /** A record below the active segment lies in the segment found for its LSN. */
  lemma {:induction false} FoundHolds(crc: Checksum, l: Log, g: View, lsn: Lsn, i: nat, s: int)
    requires Valid(crc, l, g) && IsAt(g, lsn, i) && lsn < l.activeStart && -1 <= s < |l.sealed|
    requires 0 <= s ==> l.sealed[s].start <= lsn
    requires forall j :: s < j < |l.sealed| ==> lsn < l.sealed[j].start
    ensures 0 <= s && g.starts[s] <= i < g.starts[s + 1] <= |g.log|
  {
    if s == -1 {
      assert SealedOk(l, g, 0);
      LsnOrder(crc, g.log, g.starts[0], i);
    } else {
      assert SealedOk(l, g, s) && SealedOk(l, g, s + 1) && Ordered(g.starts, s + 1, |l.sealed|);
      LsnOrder(crc, g.log, g.starts[s], i);
      LsnOrder(crc, g.log, g.starts[s + 1], i);
    }
  }

  /** `read_at`: the record at a surviving LSN; nothing at 0 or below the first segment. */
  method ReadAt(crc: Checksum, l: Log, lsn: Lsn, ghost g: View) returns (r: Option<Record>)
    requires Valid(crc, l, g)
    ensures forall i: nat :: IsAt(g, lsn, i) ==> r == Some(g.log[i].rec)
    ensures lsn < LsnAt(g.log, g.starts[0]) ==> r == None
  {
    ghost var i: nat := 0;
    if exists i: nat :: IsAt(g, lsn, i) {
      i :| IsAt(g, lsn, i);
      assert RecordOk(crc, g.log, i);
    }
    OneRecordAt(crc, g, lsn, i);
    assert Ordered(g.starts, 0, |l.sealed|);
    LsnOrder(crc, g.log, g.starts[0], g.starts[|l.sealed|]);
    LsnOrder(crc, g.log, g.starts[|l.sealed|], g.durable);
    if lsn == 0 { return None; }
    if lsn >= l.durableLsn {
      r := ReadBuffer(crc, l, lsn, g, i);
    } else if lsn >= l.activeStart {
      r := ReadActive(crc, l, lsn, g, i);
    } else {
      r := ReadSealed(crc, l, lsn, g, i);
    }
  }

  lemma {:induction false} OneRecordAt(crc: Checksum, g: View, lsn: Lsn, i: nat)
    requires Numbered(crc, g.log)
    ensures IsAt(g, lsn, i) ==> forall j: nat :: IsAt(g, lsn, j) ==> j == i
  {
    forall j: nat | IsAt(g, lsn, i) && IsAt(g, lsn, j) ensures j == i {
      LsnOrder(crc, g.log, i, j);
      LsnOrder(crc, g.log, j, i);
    }
  }

  method ReadBuffer(crc: Checksum, l: Log, lsn: Lsn, ghost g: View, ghost i: nat) returns (r: Option<Record>)
    requires Valid(crc, l, g) && lsn >= l.durableLsn
    ensures IsAt(g, lsn, i) ==> r == Some(g.log[i].rec)
  {
    if IsAt(g, lsn, i) {
      assert RecordOk(crc, g.log, i);
      LsnOrder(crc, g.log, g.durable, i);
      ReadsInBuffer(crc, g.log, g.durable, i, l.buffer, lsn - l.durableLsn);
    }
    var d := Decode(crc, l.buffer, lsn - l.durableLsn);
    r := if d.Some? then Some(d.value.0) else None;
  }

  method ReadActive(crc: Checksum, l: Log, lsn: Lsn, ghost g: View, ghost i: nat) returns (r: Option<Record>)
    requires Valid(crc, l, g) && l.activeStart <= lsn < l.durableLsn
    ensures IsAt(g, lsn, i) ==> r == Some(g.log[i].rec)
  {
    var b, offset := l.store[l.activeId], HEADER_LEN + (lsn - l.activeStart);
    if IsAt(g, lsn, i) {
      ActiveAt(crc, l, g, lsn, i);
      ReadsInSegment(crc, g.log, g.starts[|l.sealed|], g.durable, i, b, offset);
    }
    r := ReadRecordAt(crc, b, offset);
  }

  lemma {:induction false} ActiveAt(crc: Checksum, l: Log, g: View, lsn: Lsn, i: nat)
    requires Valid(crc, l, g) && IsAt(g, lsn, i) && l.activeStart <= lsn < l.durableLsn
    ensures g.starts[|l.sealed|] <= i < g.durable <= |g.log| && EntryOk(crc, g.log[i])
    ensures lsn == LsnAt(g.log, i) && l.activeStart == LsnAt(g.log, g.starts[|l.sealed|])
    ensures l.activeId in l.store && l.store[l.activeId] == SegmentBytes(g.log, g.starts[|l.sealed|], g.durable)
  {
    assert RecordOk(crc, g.log, i);
    LsnOrder(crc, g.log, g.starts[|l.sealed|], i);
    LsnOrder(crc, g.log, g.durable, i);
  }

  method ReadSealed(crc: Checksum, l: Log, lsn: Lsn, ghost g: View, ghost i: nat) returns (r: Option<Record>)
    requires Valid(crc, l, g) && lsn < l.activeStart
    ensures IsAt(g, lsn, i) ==> r == Some(g.log[i].rec)
    ensures lsn < LsnAt(g.log, g.starts[0]) ==> r == None
  {
    var s := FindSealed(l, lsn);
    if IsAt(g, lsn, i) { FoundReads(crc, l, g, lsn, i, s); }
    if s == -1 { return None; }
    assert SealedOk(l, g, s) && Ordered(g.starts, 0, s);
    LsnOrder(crc, g.log, g.starts[0], g.starts[s]);
    r := ReadRecordAt(crc, l.store[l.sealed[s].id], HEADER_LEN + (lsn - l.sealed[s].start));
  }

  lemma {:induction false} FoundReads(crc: Checksum, l: Log, g: View, lsn: Lsn, i: nat, s: int)
    requires Valid(crc, l, g) && IsAt(g, lsn, i) && lsn < l.activeStart && -1 <= s < |l.sealed|
    requires 0 <= s ==> l.sealed[s].start <= lsn
    requires forall j :: s < j < |l.sealed| ==> lsn < l.sealed[j].start
    ensures 0 <= s && l.sealed[s].id in l.store
    ensures ReadRecordAt(crc, l.store[l.sealed[s].id], HEADER_LEN + (lsn - l.sealed[s].start)) == Some(g.log[i].rec)
  {
    FoundHolds(crc, l, g, lsn, i, s);
    assert RecordOk(crc, g.log, i) && SealedOk(l, g, s);
    ReadsInSegment(crc, g.log, g.starts[s], g.starts[s + 1], i, l.store[l.sealed[s].id], HEADER_LEN + (lsn - l.sealed[s].start));
  }
}
