/** The byte layout of an index node: a slot array growing up, payloads growing down; and that what
    `rebuild` and `insert_at` write is what the readers read back. */
module NodeLayout {
  import opened Bytes
  import opened LogRecords
  import opened KeyOrder
  import opened SplitPoints
  import opened TreeShape

  const COUNT_AT := 13
  const USED_AT := 15
  const TAIL_AT := 17
  const HEADER_LEN := 21
  const MAX_SLOTS := (PAGE_SIZE - HEADER_LEN) / SLOT_LEN
  const TYPE_AT := 12
  /** Runs of changed bytes closer than this are written as one. */
  const MERGE_GAP := 16

  type Payload = seq<byte>

  function U16At(d: PageData, at: nat): nat
    requires at + 2 <= PAGE_SIZE
  {
    var low: int, high: int := d[at], d[at + 1];
    low + 256 * high
  }

  function SlotAt(i: nat): nat { HEADER_LEN + SLOT_LEN * i }

  function Count(d: PageData): nat { U16At(d, COUNT_AT) }
  function Used(d: PageData): nat { U16At(d, USED_AT) }
  function Tail(d: PageData): nat { FromLe(d[TAIL_AT..TAIL_AT + 4]) }

  datatype Read<T> = Ok(value: T) | Corrupt

  /** `entry_payload`, with its three checks. */
  function EntryPayload(d: PageData, i: nat): Read<Payload>
  {
    if Count(d) > MAX_SLOTS || i >= Count(d) then Corrupt else
      var start, len := U16At(d, SlotAt(i)), U16At(d, SlotAt(i) + 2);
      if start < SlotAt(Count(d)) || start + len > PAGE_SIZE then Corrupt else Ok(d[start..start + len])
  }

  /** `read_entries`. */
  method ReadEntries(d: PageData) returns (r: Read<seq<Payload>>)
    ensures r.Ok? ==> |r.value| == Count(d) && forall i :: 0 <= i < |r.value| ==> EntryPayload(d, i) == Ok(r.value[i])
    ensures r.Corrupt? ==> Count(d) > MAX_SLOTS || exists i: nat :: i < Count(d) && EntryPayload(d, i) == Corrupt
  {
    if Count(d) > MAX_SLOTS { return Corrupt; }
    var entries: seq<Payload> := [];
    for i := 0 to Count(d)
      invariant |entries| == i && forall j :: 0 <= j < i ==> EntryPayload(d, j) == Ok(entries[j])
    {
      var e := EntryPayload(d, i);
      if e.Corrupt? { return Corrupt; }
      entries := entries + [e.value];
    }
    return Ok(entries);
  }

  function Total(entries: seq<Payload>): nat
  {
    if entries == [] then 0 else Total(entries[..|entries| - 1]) + |entries[|entries| - 1]|
  }

  lemma {:induction false} TotalInserted(entries: seq<Payload>, i: nat, p: Payload)
    requires i <= |entries|
    ensures Total(Inserted(entries, i, p)) == Total(entries) + |p|
    decreases |entries|
  {
    var r := Inserted(entries, i, p);
    if i == |entries| {
      assert r[..|r| - 1] == entries;
    } else {
      TotalInserted(entries[..|entries| - 1], i, p);
      InsertedFront(entries, i, p);
    }
  }

  lemma {:induction false} InsertedFront(entries: seq<Payload>, i: nat, p: Payload)
    requires i < |entries|
    ensures var r := Inserted(entries, i, p);
            r[..|r| - 1] == Inserted(entries[..|entries| - 1], i, p) && r[|r| - 1] == entries[|entries| - 1]
  {
  }

  /** Slot `i` points at `p`, at or above `start`. */
  predicate EntryAt(d: PageData, i: nat, start: nat, p: Payload)
    requires SlotAt(i) + SLOT_LEN <= PAGE_SIZE
  {
    var off := U16At(d, SlotAt(i));
    && U16At(d, SlotAt(i) + 2) == |p|
    && start <= off && off + |p| <= PAGE_SIZE
    && forall k :: 0 <= k < |p| ==> d[off + k] == p[k]
  }

  /** The page holds exactly these entries, packed against its end. */
  predicate Holds(d: PageData, entries: seq<Payload>)
  {
    && Count(d) == |entries| && Used(d) == Total(entries)
    && SlotAt(|entries|) + Total(entries) <= PAGE_SIZE
    && forall i :: 0 <= i < |entries| ==> EntryAt(d, i, PAGE_SIZE - Total(entries), entries[i])
  }

  /** Reading a page that holds some entries returns them. */
  lemma {:induction false} HoldsReads(d: PageData, entries: seq<Payload>, i: nat)
    requires Holds(d, entries) && i < |entries|
    ensures EntryPayload(d, i) == Ok(entries[i])
  {
    var off := U16At(d, SlotAt(i));
    assert EntryAt(d, i, PAGE_SIZE - Total(entries), entries[i]);
    assert d[off..off + |entries[i]|] == entries[i];
  }

  method ReadsBack(d: PageData, ghost entries: seq<Payload>) returns (r: Read<seq<Payload>>)
    requires Holds(d, entries)
    ensures r == Ok(entries)
  {
    r := ReadEntries(d);
    forall i: nat | i < |entries| ensures EntryPayload(d, i) == Ok(entries[i]) { HoldsReads(d, entries, i); }
    if r.Ok? { assert r.value == entries; }
  }

  lemma {:induction false} U16Bytes(n: nat)
    requires n < 0x1_0000
    ensures LeBytes(n, 2) == [n % 256, n / 256]
  {
    assert LeBytes(n, 2) == [n % 256] + LeBytes(n / 256, 1);
    assert LeBytes(n / 256, 1) == [n / 256 % 256] + LeBytes(n / 256 / 256, 0);
  }

  // ---- insert_at ----

  function WithPayload(d: PageData, p: Payload): PageData
    requires Used(d) + |p| <= PAGE_SIZE
  {
    Overwrite(d, PAGE_SIZE - Used(d) - |p|, p)
  }

  function WithGap(d: PageData, i: nat, count: nat): PageData
    requires i <= count && SlotAt(count + 1) <= PAGE_SIZE
  {
    if i < count then Overwrite(d, SlotAt(i + 1), d[SlotAt(i)..SlotAt(count)]) else d
  }

  function WithSlot(d: PageData, i: nat, at: nat, len: nat): PageData
    requires SlotAt(i + 1) <= PAGE_SIZE
  {
    Overwrite(d, SlotAt(i), LeBytes(at, 2) + LeBytes(len, 2))
  }

  function WithHeader(d: PageData, count: nat, used: nat): PageData
  {
    Overwrite(d, COUNT_AT, LeBytes(count, 2) + LeBytes(used, 2))
  }

  /** The four writes of `insert_at`, in order. */
  function AfterInsert(d: PageData, i: nat, p: Payload): PageData
    requires i <= Count(d) && SlotAt(Count(d) + 1) + |p| + Used(d) <= PAGE_SIZE
  {
    var at := PAGE_SIZE - Used(d) - |p|;
    WithHeader(WithSlot(WithGap(WithPayload(d, p), i, Count(d)), i, at, |p|), Count(d) + 1, Used(d) + |p|)
  }

  lemma {:induction false} SlotBytes(d: PageData, i: nat, at: nat, len: nat)
    requires SlotAt(i + 1) <= PAGE_SIZE && at < 0x1_0000 && len < 0x1_0000
    ensures U16At(WithSlot(d, i, at, len), SlotAt(i)) == at && U16At(WithSlot(d, i, at, len), SlotAt(i) + 2) == len
    ensures forall x :: 0 <= x < PAGE_SIZE && !(SlotAt(i) <= x < SlotAt(i + 1)) ==> WithSlot(d, i, at, len)[x] == d[x]
  {
    U16Bytes(at);
    U16Bytes(len);
  }

  lemma {:induction false} HeaderBytes(d: PageData, count: nat, used: nat)
    requires count < 0x1_0000 && used < 0x1_0000
    ensures Count(WithHeader(d, count, used)) == count && Used(WithHeader(d, count, used)) == used
    ensures forall x :: 0 <= x < PAGE_SIZE && !(COUNT_AT <= x < TAIL_AT) ==> WithHeader(d, count, used)[x] == d[x]
  {
    U16Bytes(count);
    U16Bytes(used);
  }

  lemma {:induction false} GapBytes(d: PageData, i: nat, count: nat)
    requires i <= count && SlotAt(count + 1) <= PAGE_SIZE
    ensures forall x :: 0 <= x < PAGE_SIZE && !(SlotAt(i + 1) <= x < SlotAt(count + 1)) ==> WithGap(d, i, count)[x] == d[x]
    ensures forall x :: SlotAt(i + 1) <= x < SlotAt(count + 1) ==> WithGap(d, i, count)[x] == d[x - SLOT_LEN]
  {
  }

  lemma {:induction false} PayloadBytes(d: PageData, p: Payload)
    requires Used(d) + |p| <= PAGE_SIZE
    ensures var at := PAGE_SIZE - Used(d) - |p|;
            forall x :: 0 <= x < PAGE_SIZE ==> WithPayload(d, p)[x] == if at <= x < at + |p| then p[x - at] else d[x]
  {
  }

  /** Byte by byte, what those writes leave. */
  lemma {:induction false} AfterInsertAt(d: PageData, i: nat, p: Payload, x: nat)
    requires i <= Count(d) && SlotAt(Count(d) + 1) + |p| + Used(d) <= PAGE_SIZE && x < PAGE_SIZE
    ensures var count, at, r := Count(d), PAGE_SIZE - Used(d) - |p|, AfterInsert(d, i, p);
            && (HEADER_LEN <= x < SlotAt(i) || x < COUNT_AT || TAIL_AT <= x < HEADER_LEN || PAGE_SIZE - Used(d) <= x ==> r[x] == d[x])
            && (SlotAt(i + 1) <= x < SlotAt(count + 1) ==> r[x] == d[x - SLOT_LEN])
            && (at <= x < at + |p| ==> r[x] == p[x - at])
  {
    var count, at := Count(d), PAGE_SIZE - Used(d) - |p|;
    var d1 := WithPayload(d, p);
    var d2 := WithGap(d1, i, count);
    var d3 := WithSlot(d2, i, at, |p|);
    PayloadBytes(d, p);
    GapBytes(d1, i, count);
    SlotBytes(d2, i, at, |p|);
    HeaderBytes(d3, count + 1, Used(d) + |p|);
  }

  lemma {:induction false} InsertHeader(d: PageData, i: nat, p: Payload)
    requires i <= Count(d) && SlotAt(Count(d) + 1) + |p| + Used(d) <= PAGE_SIZE
    ensures var r := AfterInsert(d, i, p);
            && Count(r) == Count(d) + 1 && Used(r) == Used(d) + |p|
            && U16At(r, SlotAt(i)) == PAGE_SIZE - Used(d) - |p| && U16At(r, SlotAt(i) + 2) == |p|
  {
    var at := PAGE_SIZE - Used(d) - |p|;
    var d2 := WithGap(WithPayload(d, p), i, Count(d));
    SlotBytes(d2, i, at, |p|);
    HeaderBytes(WithSlot(d2, i, at, |p|), Count(d) + 1, Used(d) + |p|);
  }

  /** An entry whose slot was copied and whose payload was left alone can still be read. */
  lemma {:induction false} EntryMoves(d: PageData, i: nat, r: PageData, j: nat, start: nat, low: nat, p: Payload)
    requires SlotAt(i + 1) <= PAGE_SIZE && SlotAt(j + 1) <= PAGE_SIZE && EntryAt(d, i, start, p) && low <= start
    requires SameSlot(d, i, r, j) && forall x :: start <= x < PAGE_SIZE ==> r[x] == d[x]
    ensures EntryAt(r, j, low, p)
  {
  }

  predicate SameSlot(d: PageData, i: nat, r: PageData, j: nat)
    requires SlotAt(i + 1) <= PAGE_SIZE && SlotAt(j + 1) <= PAGE_SIZE
  {
    U16At(r, SlotAt(j)) == U16At(d, SlotAt(i)) && U16At(r, SlotAt(j) + 2) == U16At(d, SlotAt(i) + 2)
  }

  lemma {:induction false} SlotByte(d: PageData, i: nat, p: Payload, j: nat, k: nat)
    requires i <= Count(d) && SlotAt(Count(d) + 1) + |p| + Used(d) <= PAGE_SIZE && j <= Count(d) && j != i && k < SLOT_LEN
    ensures AfterInsert(d, i, p)[SlotAt(j) + k] == d[SlotAt(if j < i then j else j - 1) + k]
  {
    AfterInsertAt(d, i, p, SlotAt(j) + k);
  }

  lemma {:induction false} SlotAfterInsert(d: PageData, i: nat, p: Payload, j: nat, r: PageData)
    requires i <= Count(d) && SlotAt(Count(d) + 1) + |p| + Used(d) <= PAGE_SIZE && j <= Count(d) && j != i
    requires r == AfterInsert(d, i, p)
    ensures SameSlot(d, if j < i then j else j - 1, r, j)
  {
    var x, y := SlotAt(if j < i then j else j - 1), SlotAt(j);
    forall k ensures SameByte(d, x, r, y, k) {
      if 0 <= k < SLOT_LEN { SlotByte(d, i, p, j, k); }
    }
    FourBytes(d, x, r, y);
  }

  predicate SameByte(d: PageData, x: nat, r: PageData, y: nat, k: int)
    requires x + SLOT_LEN <= PAGE_SIZE && y + SLOT_LEN <= PAGE_SIZE
  {
    0 <= k < SLOT_LEN ==> r[y + k] == d[x + k]
  }

  lemma {:induction false} FourBytes(d: PageData, x: nat, r: PageData, y: nat)
    requires x + SLOT_LEN <= PAGE_SIZE && y + SLOT_LEN <= PAGE_SIZE && forall k :: SameByte(d, x, r, y, k)
    ensures U16At(r, y) == U16At(d, x) && U16At(r, y + 2) == U16At(d, x + 2)
  {
    assert SameByte(d, x, r, y, 0) && SameByte(d, x, r, y, 1) && SameByte(d, x, r, y, 2) && SameByte(d, x, r, y, 3);
  }

  lemma {:induction false} OldEntryAfterInsert(d: PageData, entries: seq<Payload>, i: nat, p: Payload, j: nat)
    requires Holds(d, entries) && i <= |entries| && j <= |entries| && j != i && SlotAt(|entries| + 1) + |p| + Total(entries) <= PAGE_SIZE
    ensures EntryAt(AfterInsert(d, i, p), j, PAGE_SIZE - Total(entries) - |p|, entries[if j < i then j else j - 1])
  {
    var r, start, from := AfterInsert(d, i, p), PAGE_SIZE - Total(entries), if j < i then j else j - 1;
    assert EntryAt(d, from, start, entries[from]);
    SlotAfterInsert(d, i, p, j, r);
    forall x: nat | start <= x < PAGE_SIZE ensures r[x] == d[x] { AfterInsertAt(d, i, p, x); }
    EntryMoves(d, from, r, j, start, start - |p|, entries[from]);
  }

  lemma {:induction false} NewEntryAfterInsert(d: PageData, entries: seq<Payload>, i: nat, p: Payload)
    requires Holds(d, entries) && i <= |entries| && SlotAt(|entries| + 1) + |p| + Total(entries) <= PAGE_SIZE
    ensures EntryAt(AfterInsert(d, i, p), i, PAGE_SIZE - Total(entries) - |p|, p)
  {
    InsertHeader(d, i, p);
    var r, at := AfterInsert(d, i, p), PAGE_SIZE - Total(entries) - |p|;
    forall k | 0 <= k < |p| ensures r[at + k] == p[k] { AfterInsertAt(d, i, p, at + k); }
  }

  /** `insert_at`: the old entries with the payload at that index, and nothing else of the node changed. */
  lemma {:induction false} InsertHolds(d: PageData, entries: seq<Payload>, i: nat, p: Payload)
    requires Holds(d, entries) && i <= |entries| && SlotAt(|entries| + 1) + |p| + Total(entries) <= PAGE_SIZE
    ensures Holds(AfterInsert(d, i, p), Inserted(entries, i, p))
  {
    var r, more := AfterInsert(d, i, p), Inserted(entries, i, p);
    InsertHeader(d, i, p);
    TotalInserted(entries, i, p);
    var start := PAGE_SIZE - Total(entries) - |p|;
    forall j | 0 <= j < |more| ensures EntryAt(r, j, start, more[j]) { EntryAfterInsert(d, entries, i, p, j); }
  }

  lemma {:induction false} EntryAfterInsert(d: PageData, entries: seq<Payload>, i: nat, p: Payload, j: nat)
    requires Holds(d, entries) && i <= |entries| && j <= |entries| && SlotAt(|entries| + 1) + |p| + Total(entries) <= PAGE_SIZE
    ensures EntryAt(AfterInsert(d, i, p), j, PAGE_SIZE - Total(entries) - |p|, Inserted(entries, i, p)[j])
  {
    if j == i {
      NewEntryAfterInsert(d, entries, i, p);
    } else {
      OldEntryAfterInsert(d, entries, i, p, j);
      InsertedAt(entries, i, p, j);
    }
  }

  lemma {:induction false} InsertedAt(entries: seq<Payload>, i: nat, p: Payload, j: nat)
    requires i <= |entries| && j <= |entries| && j != i
    ensures Inserted(entries, i, p)[j] == entries[if j < i then j else j - 1]
  {
  }

  lemma {:induction false} InsertKeepsTail(d: PageData, i: nat, p: Payload)
    requires i <= Count(d) && SlotAt(Count(d) + 1) + |p| + Used(d) <= PAGE_SIZE
    ensures Tail(AfterInsert(d, i, p)) == Tail(d) && AfterInsert(d, i, p)[..COUNT_AT] == d[..COUNT_AT]
  {
    var r := AfterInsert(d, i, p);
    forall x: nat | TAIL_AT <= x < HEADER_LEN || x < COUNT_AT ensures r[x] == d[x] { AfterInsertAt(d, i, p, x); }
    assert r[TAIL_AT..TAIL_AT + 4] == d[TAIL_AT..TAIL_AT + 4];
  }

  // ---- changed_byte_runs ----

  datatype Run = Run(start: nat, end: nat)

  /** Writing the given runs of `target` over `d`. */
  function Patched(d: seq<byte>, target: seq<byte>, runs: seq<Run>): (r: seq<byte>)
    requires |d| == |target| && forall i :: 0 <= i < |runs| ==> runs[i].start <= runs[i].end <= |d|
    ensures |r| == |d|
  {
    if runs == [] then d else
      var q, last := Patched(d, target, runs[..|runs| - 1]), runs[|runs| - 1];
      q[..last.start] + target[last.start..last.end] + q[last.end..]
  }

  predicate Inside(runs: seq<Run>, x: int)
  {
    exists i :: 0 <= i < |runs| && runs[i].start <= x < runs[i].end
  }

  lemma {:induction false} PatchedAt(d: seq<byte>, target: seq<byte>, runs: seq<Run>, x: nat)
    requires |d| == |target| && (forall i :: 0 <= i < |runs| ==> runs[i].start <= runs[i].end <= |d|) && x < |d|
    ensures Patched(d, target, runs)[x] == if Inside(runs, x) then target[x] else d[x]
    decreases |runs|
  {
    if runs != [] {
      var front, last := runs[..|runs| - 1], runs[|runs| - 1];
      PatchedAt(d, target, front, x);
      PatchOne(Patched(d, target, front), target, last.start, last.end, x);
      InsideMore(runs, x);
    }
  }

  lemma {:induction false} PatchOne(q: seq<byte>, target: seq<byte>, a: nat, b: nat, x: nat)
    requires a <= b <= |q| == |target| && x < |q|
    ensures (q[..a] + target[a..b] + q[b..])[x] == if a <= x < b then target[x] else q[x]
  {
  }

  lemma {:induction false} InsideMore(runs: seq<Run>, x: int)
    requires runs != []
    ensures var last := runs[|runs| - 1]; Inside(runs, x) <==> Inside(runs[..|runs| - 1], x) || last.start <= x < last.end
  {
    var front, last := runs[..|runs| - 1], runs[|runs| - 1];
    if Inside(runs, x) && !(last.start <= x < last.end) {
      var i :| 0 <= i < |runs| && runs[i].start <= x < runs[i].end;
      assert front[i] == runs[i];
    }
    if Inside(front, x) {
      var i :| 0 <= i < |front| && front[i].start <= x < front[i].end;
      assert runs[i] == front[i];
    }
  }

  /** The runs cover every difference below `upto`. */
  predicate RunsCover(before: seq<byte>, after: seq<byte>, runs: seq<Run>, upto: nat)
    requires upto <= |before| == |after|
  {
    && (forall i :: 0 <= i < |runs| ==> runs[i].start <= runs[i].end <= upto)
    && (forall x :: 0 <= x < upto && before[x] != after[x] ==> Inside(runs, x))
  }

  /** `changed_byte_runs`. */
  method ChangedRuns(before: seq<byte>, after: seq<byte>) returns (runs: seq<Run>)
    requires |before| == |after|
    ensures RunsCover(before, after, runs, |before|)
  {
    runs := [];
    var i := 0;
    while i < |before|
      invariant i <= |before| && RunsCover(before, after, runs, i)
    {
      if before[i] == after[i] {
        i := i + 1;
        continue;
      }
      var start := i;
      while i < |before| && before[i] != after[i]
        invariant start <= i <= |before|
        decreases |before| - i
      {
        i := i + 1;
      }
      if runs != [] && start - runs[|runs| - 1].end < MERGE_GAP {
        RunExtended(before, after, runs, start, i);
        runs := runs[|runs| - 1 := Run(runs[|runs| - 1].start, i)];
      } else {
        RunAdded(before, after, runs, start, i);
        runs := runs + [Run(start, i)];
      }
    }
  }

  lemma {:induction false} RunExtended(before: seq<byte>, after: seq<byte>, runs: seq<Run>, start: nat, i: nat)
    requires start <= i <= |before| == |after| && RunsCover(before, after, runs, start) && runs != []
    ensures RunsCover(before, after, runs[|runs| - 1 := Run(runs[|runs| - 1].start, i)], i)
  {
    var more := runs[|runs| - 1 := Run(runs[|runs| - 1].start, i)];
    forall x | 0 <= x < i && before[x] != after[x] ensures Inside(more, x) {
      if x < start {
        var k :| 0 <= k < |runs| && runs[k].start <= x < runs[k].end;
        assert more[k].start <= x < more[k].end;
      } else {
        assert more[|runs| - 1].start <= x < more[|runs| - 1].end;
      }
    }
  }

  lemma {:induction false} RunAdded(before: seq<byte>, after: seq<byte>, runs: seq<Run>, start: nat, i: nat)
    requires start <= i <= |before| == |after| && RunsCover(before, after, runs, start)
    ensures RunsCover(before, after, runs + [Run(start, i)], i)
  {
    var more := runs + [Run(start, i)];
    forall x | 0 <= x < i && before[x] != after[x] ensures Inside(more, x) {
      if x < start {
        var k :| 0 <= k < |runs| && runs[k].start <= x < runs[k].end;
        assert more[k].start <= x < more[k].end;
      } else {
        assert more[|runs|].start <= x < more[|runs|].end;
      }
    }
  }

  /** Writing only the changed runs gives exactly the new bytes. */
  lemma {:induction false} PatchedIsTarget(before: seq<byte>, after: seq<byte>, runs: seq<Run>)
    requires |before| == |after| && RunsCover(before, after, runs, |before|)
    ensures Patched(before, after, runs) == after
  {
    forall x | 0 <= x < |before| ensures Patched(before, after, runs)[x] == after[x] { PatchedAt(before, after, runs, x); }
  }

  // ---- rebuild ----

  /** The header fields a rebuild writes, with everything before them left alone. */
  predicate HeaderIs(d: PageData, r: PageData, tag: byte, tail: nat, count: nat, used: nat)
  {
    r[..TYPE_AT] == d[..TYPE_AT] && r[TYPE_AT] == tag && Count(r) == count && Used(r) == used && Tail(r) == tail
  }

  function Header(d: PageData, tag: byte, tail: nat, count: nat, used: nat): PageData
  {
    Overwrite(WithHeader(Overwrite(d, TYPE_AT, [tag]), count, used), TAIL_AT, LeBytes(tail, 4))
  }

  lemma {:induction false} HeaderReads(d: PageData, tag: byte, tail: nat, count: nat, used: nat)
    requires count < 0x1_0000 && used < 0x1_0000 && tail < 0x1_0000_0000
    ensures HeaderIs(d, Header(d, tag, tail, count, used), tag, tail, count, used)
  {
    var d1 := Overwrite(d, TYPE_AT, [tag]);
    HeaderBytes(d1, count, used);
    Widths();
    LeRoundTrip(tail, 4);
    var r := Header(d, tag, tail, count, used);
    assert r[TAIL_AT..TAIL_AT + 4] == LeBytes(tail, 4);
    assert forall x :: 0 <= x < TAIL_AT ==> r[x] == WithHeader(d1, count, used)[x];
  }

  /** The two writes of one turn of the loop. */
  function WithEntry(d: PageData, i: nat, at: nat, p: Payload): PageData
    requires SlotAt(i + 1) <= at && at + |p| <= PAGE_SIZE
  {
    WithSlot(Overwrite(d, at, p), i, at, |p|)
  }

  lemma {:induction false} EntryWritten(d: PageData, i: nat, at: nat, p: Payload)
    requires SlotAt(i + 1) <= at && at + |p| <= PAGE_SIZE
    ensures var r := WithEntry(d, i, at, p);
            && EntryAt(r, i, at, p)
            && (forall x :: 0 <= x < SlotAt(i) ==> r[x] == d[x])
            && (forall x :: at + |p| <= x < PAGE_SIZE ==> r[x] == d[x])
  {
    SlotBytes(Overwrite(d, at, p), i, at, |p|);
  }

  lemma {:induction false} HeaderStays(d: PageData, r: PageData, r': PageData, tag: byte, tail: nat, count: nat, used: nat)
    requires HeaderIs(d, r, tag, tail, count, used) && forall x :: 0 <= x < HEADER_LEN ==> r'[x] == r[x]
    ensures HeaderIs(d, r', tag, tail, count, used)
  {
    assert r'[..TYPE_AT] == r[..TYPE_AT];
    assert r'[TAIL_AT..TAIL_AT + 4] == r[TAIL_AT..TAIL_AT + 4];
  }

  /** The first `i` entries are in place, packed down to `at`. */
  predicate BuiltTo(r: PageData, entries: seq<Payload>, i: nat, at: nat)
    requires i <= |entries| && SlotAt(|entries|) <= PAGE_SIZE
  {
    forall j :: 0 <= j < i ==> EntryAt(r, j, at, entries[j])
  }

  lemma {:induction false} BuiltMore(r: PageData, entries: seq<Payload>, i: nat, at: nat, r': PageData)
    requires i < |entries| && SlotAt(|entries|) <= PAGE_SIZE && BuiltTo(r, entries, i, at + |entries[i]|)
    requires SlotAt(|entries|) <= at && at + |entries[i]| <= PAGE_SIZE && r' == WithEntry(r, i, at, entries[i])
    ensures BuiltTo(r', entries, i + 1, at)
  {
    EntryWritten(r, i, at, entries[i]);
    forall j | 0 <= j < i + 1 ensures EntryAt(r', j, at, entries[j]) {
      if j < i {
        assert EntryAt(r, j, at + |entries[i]|, entries[j]);
        FourBytes(r, SlotAt(j), r', SlotAt(j));
        EntryMoves(r, j, r', j, at + |entries[i]|, at, entries[j]);
      }
    }
  }

  datatype Rebuilt = Written(page: PageData) | NodeOverflow

  method TotalSize(entries: seq<Payload>) returns (total: nat)
    ensures total == Total(entries)
  {
    total := 0;
    for i := 0 to |entries|
      invariant total == Total(entries[..i])
    {
      assert entries[..i + 1][..i] == entries[..i];
      total := total + |entries[i]|;
    }
    assert entries[..|entries|] == entries;
  }

  /** `rebuild`: fails exactly when the entries do not fit; otherwise the page reads back as given. */
  method Rebuild(d: PageData, tag: byte, tail: nat, entries: seq<Payload>) returns (o: Rebuilt)
    requires tail < 0x1_0000_0000
    ensures o.NodeOverflow? <==> SlotAt(|entries|) + Total(entries) > PAGE_SIZE
    ensures o.Written? ==> Holds(o.page, entries) && Tail(o.page) == tail && o.page[TYPE_AT] == tag && o.page[..TYPE_AT] == d[..TYPE_AT]
  {
    var total := TotalSize(entries);
    if SlotAt(|entries|) + total > PAGE_SIZE { return NodeOverflow; }
    var body := Header(d, tag, tail, |entries|, total);
    HeaderReads(d, tag, tail, |entries|, total);
    var at := PAGE_SIZE;
    for i := 0 to |entries|
      invariant at == PAGE_SIZE - Total(entries[..i]) && Total(entries[..i]) <= total
      invariant HeaderIs(d, body, tag, tail, |entries|, total) && BuiltTo(body, entries, i, at)
    {
      assert entries[..i + 1][..i] == entries[..i];
      TotalGrows(entries, i + 1);
      at := at - |entries[i]|;
      ghost var was := body;
      body := WithEntry(body, i, at, entries[i]);
      BuiltMore(was, entries, i, at, body);
      EntryWritten(was, i, at, entries[i]);
      HeaderStays(d, was, body, tag, tail, |entries|, total);
    }
    var runs := ChangedRuns(d, body);
    PatchedIsTarget(d, body, runs);
    return Written(Patched(d, body, runs));
  }

  lemma {:induction false} TotalGrows(entries: seq<Payload>, i: nat)
    requires i <= |entries|
    ensures Total(entries[..i]) <= Total(entries)
    decreases |entries|
  {
    if i < |entries| {
      TotalGrows(entries[..|entries| - 1], i);
      assert entries[..|entries| - 1][..i] == entries[..i];
    } else {
      assert entries[..i] == entries;
    }
  }

  // ---- Payloads ----

  /** `build_leaf_payload` and `build_internal_payload`. */
  function LeafPayload(key: Key, rid: Rid): Payload
  {
    LeBytes(|key|, 2) + key + RidBytes(rid)
  }

  function InternalPayload(sep: Key, child: nat): Payload
  {
    LeBytes(|sep|, 2) + sep + LeBytes(child, 4)
  }

  function KeyLen(p: Payload): nat
  {
    if |p| < 2 then 0 else FromLe(p[..2])
  }

  /** `entry_key`, `leaf_sort_key`, `internal_child`. */
  function EntryKey(p: Payload): Key
  {
    if 2 + KeyLen(p) <= |p| then p[2..2 + KeyLen(p)] else []
  }

  function LeafSortKey(p: Payload): Key
  {
    if 2 + KeyLen(p) + RID_LEN <= |p| then p[2..2 + KeyLen(p) + RID_LEN] else []
  }

  function InternalChild(p: Payload): nat
    requires 2 + KeyLen(p) + 4 <= |p|
  {
    FromLe(p[2 + KeyLen(p)..2 + KeyLen(p) + 4])
  }

  /** An entry is found again under exactly the sort key it was built from. */
  lemma {:induction false} LeafPayloadReads(key: Key, rid: Rid)
    requires |key| < 0x1_0000
    ensures var p := LeafPayload(key, rid);
            EntryKey(p) == key && LeafSortKey(p) == SortKey(key, rid) && SLOT_LEN + |p| == SLOT_LEN + 2 + |SortKey(key, rid)|
  {
    var p := LeafPayload(key, rid);
    Widths();
    LeRoundTrip(|key|, 2);
    assert p[..2] == LeBytes(|key|, 2);
    assert p[2..2 + |key|] == key;
    assert p[2..2 + |key| + RID_LEN] == SortKey(key, rid);
  }

  lemma {:induction false} InternalPayloadReads(sep: Key, child: nat)
    requires |sep| < 0x1_0000 && child < 0x1_0000_0000
    ensures var p := InternalPayload(sep, child);
            EntryKey(p) == sep && 2 + KeyLen(p) + 4 == |p| && InternalChild(p) == child
  {
    var p := InternalPayload(sep, child);
    Widths();
    LeRoundTrip(|sep|, 2);
    LeRoundTrip(child, 4);
    assert p[..2] == LeBytes(|sep|, 2);
    assert p[2..2 + |sep|] == sep;
    assert p[2 + |sep|..2 + |sep| + 4] == LeBytes(child, 4);
  }

  /** The payloads of a leaf holding these sort keys. */
  function LeafPayloads(keys: seq<Key>): (r: seq<Payload>)
    requires forall i :: 0 <= i < |keys| ==> KeySize(keys[i])
    ensures |r| == |keys|
  {
    seq(|keys|, i requires 0 <= i < |keys| && KeySize(keys[i]) => LeafPayload(KeyOf(keys[i]), RidOf(keys[i])))
  }

  /** A leaf of the tree fits its budget exactly when `rebuild` of its payloads succeeds, and reads back as its sort keys. */
  lemma {:induction false} LeafSizesAgree(keys: seq<Key>, next: TreeShape.PageId)
    requires forall i :: 0 <= i < |keys| ==> KeySize(keys[i])
    ensures Fits(Leaf(keys, next)) <==> SlotAt(|keys|) + Total(LeafPayloads(keys)) <= PAGE_SIZE
    ensures forall i :: 0 <= i < |keys| ==> LeafSortKey(LeafPayloads(keys)[i]) == keys[i]
  {
    LeafTotal(keys);
    forall i | 0 <= i < |keys| ensures LeafSortKey(LeafPayloads(keys)[i]) == keys[i] {
      LeafPayloadReads(KeyOf(keys[i]), RidOf(keys[i]));
      SortKeyOfParts(keys[i]);
    }
  }

  lemma {:induction false} LeafPrefix(keys: seq<Key>, n: nat)
    requires n <= |keys| && forall i :: 0 <= i < |keys| ==> KeySize(keys[i])
    ensures LeafCosts(keys)[..n] == LeafCosts(keys[..n]) && LeafPayloads(keys)[..n] == LeafPayloads(keys[..n])
  {
  }

  lemma {:induction false} LeafTotal(keys: seq<Key>)
    requires forall i :: 0 <= i < |keys| ==> KeySize(keys[i])
    ensures Sum(LeafCosts(keys)) == SLOT_LEN * |keys| + Total(LeafPayloads(keys))
    decreases |keys|
  {
    if keys != [] {
      var n := |keys| - 1;
      LeafTotal(keys[..n]);
      LeafPrefix(keys, n);
    }
  }

  predicate Storable(keys: seq<Key>, kids: seq<TreeShape.PageId>)
  {
    |kids| == |keys| + 1 && (forall i :: 0 <= i < |keys| ==> |keys[i]| < 0x1_0000) && forall i :: 0 <= i < |kids| ==> kids[i].Page? && kids[i].id < 0x1_0000_0000
  }

  /** The payloads of an internal node; its leftmost child is the tail. */
  function InternalPayloads(keys: seq<Key>, kids: seq<TreeShape.PageId>): (r: seq<Payload>)
    requires Storable(keys, kids)
    ensures |r| == |keys|
  {
    seq(|keys|, i requires 0 <= i < |keys| && Storable(keys, kids) => InternalPayload(keys[i], kids[i + 1].id))
  }

  /** An internal node fits its budget exactly when `rebuild` of its payloads succeeds, and reads back as its separators and children. */
  lemma {:induction false} InternalSizesAgree(keys: seq<Key>, kids: seq<TreeShape.PageId>)
    requires Storable(keys, kids)
    ensures Fits(Internal(keys, kids)) <==> SlotAt(|keys|) + Total(InternalPayloads(keys, kids)) <= PAGE_SIZE
    ensures forall i :: 0 <= i < |keys| ==> ReadsInternal(InternalPayloads(keys, kids)[i], keys[i], kids[i + 1].id)
  {
    InternalTotal(keys, kids);
    forall i | 0 <= i < |keys| ensures ReadsInternal(InternalPayloads(keys, kids)[i], keys[i], kids[i + 1].id) {
      InternalPayloadReads(keys[i], kids[i + 1].id);
    }
  }

  predicate ReadsInternal(p: Payload, sep: Key, child: nat)
  {
    EntryKey(p) == sep && 2 + KeyLen(p) + 4 <= |p| && InternalChild(p) == child
  }

  lemma {:induction false} InternalPrefix(keys: seq<Key>, kids: seq<TreeShape.PageId>, n: nat)
    requires n <= |keys| && Storable(keys, kids)
    ensures InternalCosts(keys)[..n] == InternalCosts(keys[..n])
    ensures Storable(keys[..n], kids[..n + 1]) && InternalPayloads(keys, kids)[..n] == InternalPayloads(keys[..n], kids[..n + 1])
  {
  }

  lemma {:induction false} InternalTotal(keys: seq<Key>, kids: seq<TreeShape.PageId>)
    requires Storable(keys, kids)
    ensures Sum(InternalCosts(keys)) == SLOT_LEN * |keys| + Total(InternalPayloads(keys, kids))
    decreases |keys|
  {
    if keys != [] {
      var n := |keys| - 1;
      InternalPrefix(keys, kids, n);
      InternalTotal(keys[..n], kids[..n + 1]);
    }
  }

  // ---- The page guard ----

  /** A page held for writing; each write is one logged update. */
  class NodePage {
    var data: PageData

    constructor (d: PageData)
      ensures data == d
    {
      data := d;
    }

    method Write(at: nat, bytes: seq<byte>)
      modifies this
      ensures data == Overwrite(old(data), at, bytes)
    {
      data := Overwrite(data, at, bytes);
    }

    /** `Node::insert_at`: four writes. */
    method InsertAt(index: nat, payload: Payload)
      requires index <= Count(data) && SlotAt(Count(data) + 1) + |payload| + Used(data) <= PAGE_SIZE
      modifies this
      ensures data == AfterInsert(old(data), index, payload)
    {
      ghost var d := data;
      var count, used := Count(data), Used(data);
      var at := PAGE_SIZE - used - |payload|;
      Write(at, payload);
      assert data == WithPayload(d, payload);
      MakeGap(index, count);
      FillSlot(index, at, |payload|);
      Write(COUNT_AT, LeBytes(count + 1, 2) + LeBytes(used + |payload|, 2));
    }

    method MakeGap(index: nat, count: nat)
      requires index <= count && SlotAt(count + 1) <= PAGE_SIZE
      modifies this
      ensures data == WithGap(old(data), index, count)
    {
      if index < count { Write(SlotAt(index + 1), data[SlotAt(index)..SlotAt(count)]); }
    }

    method FillSlot(index: nat, at: nat, len: nat)
      requires SlotAt(index + 1) <= PAGE_SIZE
      modifies this
      ensures data == WithSlot(old(data), index, at, len)
    {
      Write(SlotAt(index), LeBytes(at, 2) + LeBytes(len, 2));
    }
  }
}
