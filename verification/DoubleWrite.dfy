/** The double-write buffer: a crash may tear any page write, and recovery makes every page whole again. */
module DoubleWrite {
  import opened Bytes
  import opened Options
  import opened LogRecords

  type Image = seq<byte>

  /** The checksum is any function of the bytes that does not map the zero page to zero. */
  type Crc = seq<byte> -> U32

  // ---- The header of the buffer ----

  datatype Slot = Slot(page: U32, crc: U32)

  const MAGIC: seq<byte> := [0x46, 0x44, 0x42, 0x44, 0x57, 0x42, 0x30, 0x32]
  const ENTRIES_OFFSET := 12
  const ENTRY_SIZE := 8

  /** The whole header and its checksum fit in a page. */
  predicate Fits(count: nat)
  {
    ENTRIES_OFFSET + count * ENTRY_SIZE + 4 <= PAGE_SIZE
  }

  function SlotBytes(s: Slot): (b: seq<byte>)
    ensures |b| == ENTRY_SIZE
  {
    LeBytes(s.page, 4) + LeBytes(s.crc, 4)
  }

  function EntryBytes(slots: seq<Slot>): (b: seq<byte>)
    ensures |b| == |slots| * ENTRY_SIZE
  {
    if slots == [] then [] else EntryBytes(slots[..|slots| - 1]) + SlotBytes(slots[|slots| - 1])
  }

  function Zeros(n: nat): (z: seq<byte>)
    ensures |z| == n
  {
    seq(n, _ => 0)
  }

  function HeaderContent(slots: seq<Slot>): (b: seq<byte>)
    ensures |b| == ENTRIES_OFFSET + |slots| * ENTRY_SIZE
  {
    MAGIC + LeBytes(|slots|, 4) + EntryBytes(slots)
  }

  function EncodeHeader(slots: seq<Slot>, crc: Crc): (b: Image)
    requires Fits(|slots|)
    ensures |b| == PAGE_SIZE
  {
    var content := HeaderContent(slots);
    content + LeBytes(crc(content), 4) + Zeros(PAGE_SIZE - |content| - 4)
  }

  function ReadU32(b: seq<byte>, at: nat): U32
    requires at + 4 <= |b|
  {
    Widths();
    FromLe(b[at..at + 4])
  }

  function ReadSlots(b: seq<byte>, count: nat): (slots: seq<Slot>)
    requires ENTRIES_OFFSET + count * ENTRY_SIZE <= |b|
    ensures |slots| == count
  {
    seq(count, i requires 0 <= i < count =>
      Slot(ReadU32(b, ENTRIES_OFFSET + i * ENTRY_SIZE), ReadU32(b, ENTRIES_OFFSET + i * ENTRY_SIZE + 4)))
  }

  function DecodeHeader(b: Image, capacity: nat, crc: Crc): (r: Option<seq<Slot>>)
    requires |b| == PAGE_SIZE
    ensures r.Some? ==> 0 < |r.value| <= capacity
  {
    if b[..8] != MAGIC then None else
      var count := ReadU32(b, 8);
      if count == 0 || count > capacity || !Fits(count) then None else
        var end := ENTRIES_OFFSET + count * ENTRY_SIZE;
        if crc(b[..end]) != ReadU32(b, end) then None else Some(ReadSlots(b, count))
  }

  lemma {:induction false} EntryAt(slots: seq<Slot>, i: nat)
    requires i < |slots|
    ensures EntryBytes(slots)[i * ENTRY_SIZE..i * ENTRY_SIZE + ENTRY_SIZE] == SlotBytes(slots[i])
    decreases |slots|
  {
    var front := EntryBytes(slots[..|slots| - 1]);
    if i < |slots| - 1 {
      EntryAt(slots[..|slots| - 1], i);
      assert slots[..|slots| - 1][i] == slots[i];
      assert (front + SlotBytes(slots[|slots| - 1]))[i * ENTRY_SIZE..i * ENTRY_SIZE + ENTRY_SIZE] == front[i * ENTRY_SIZE..i * ENTRY_SIZE + ENTRY_SIZE];
    }
  }

  lemma {:induction false} LeRead(b: seq<byte>, at: nat, n: U32)
    requires at + 4 <= |b| && b[at..at + 4] == LeBytes(n, 4)
    ensures ReadU32(b, at) == n
  {
    Widths();
    LeRoundTrip(n, 4);
  }

  lemma {:induction false} SliceOfSlice(b: seq<byte>, lo: nat, hi: nat, x: nat, y: nat)
    requires x <= y && lo + y <= hi <= |b|
    ensures b[lo..hi][x..y] == b[lo + x..lo + y]
  {
    forall k | 0 <= k < y - x ensures b[lo..hi][x..y][k] == b[lo + x..lo + y][k] { assert b[lo..hi][x + k] == b[lo + x + k]; }
  }

  lemma {:induction false} SlotRead(b: seq<byte>, slots: seq<Slot>, i: nat)
    requires i < |slots| && |b| >= ENTRIES_OFFSET + |slots| * ENTRY_SIZE && b[ENTRIES_OFFSET..ENTRIES_OFFSET + |slots| * ENTRY_SIZE] == EntryBytes(slots)
    ensures ReadU32(b, ENTRIES_OFFSET + i * ENTRY_SIZE) == slots[i].page
    ensures ReadU32(b, ENTRIES_OFFSET + i * ENTRY_SIZE + 4) == slots[i].crc
  {
    EntryAt(slots, i);
    var at := ENTRIES_OFFSET + i * ENTRY_SIZE;
    var es := EntryBytes(slots);
    SliceOfSlice(b, ENTRIES_OFFSET, ENTRIES_OFFSET + |es|, i * ENTRY_SIZE, i * ENTRY_SIZE + 8);
    assert b[at..at + 8] == SlotBytes(slots[i]);
    assert b[at..at + 4] == b[at..at + 8][..4] == LeBytes(slots[i].page, 4);
    assert b[at + 4..at + 8] == b[at..at + 8][4..] == LeBytes(slots[i].crc, 4);
    LeRead(b, at, slots[i].page);
    LeRead(b, at + 4, slots[i].crc);
  }

  /** A batch header reads back as its entries, and the header of the empty batch as no batch. */
  lemma {:induction false} HeaderRoundTrip(slots: seq<Slot>, capacity: nat, crc: Crc)
    requires |slots| <= capacity && Fits(|slots|)
    ensures DecodeHeader(EncodeHeader(slots, crc), capacity, crc) == if slots == [] then None else Some(slots)
  {
    Widths();
    var content := HeaderContent(slots);
    var b := EncodeHeader(slots, crc);
    assert content[..8] == MAGIC && content[8..12] == LeBytes(|slots|, 4);
    assert b[..8] == content[..8] && b[8..12] == content[8..12];
    LeRead(b, 8, |slots|);
    assert b[..|content|] == content;
    assert b[|content|..|content| + 4] == LeBytes(crc(content), 4);
    LeRead(b, |content|, crc(content));
    assert b[ENTRIES_OFFSET..|content|] == EntryBytes(slots);
    forall i | 0 <= i < |slots| ensures ReadSlots(b, |slots|)[i] == slots[i] { SlotRead(b, slots, i); }
    assert ReadSlots(b, |slots|) == slots;
  }

  /** `encode_header`: the buffer starts as zeros and is filled entry by entry. */
  method FillHeader(slots: seq<Slot>, crc: Crc) returns (buf: Image)
    requires Fits(|slots|)
    ensures buf == EncodeHeader(slots, crc)
  {
    var head := MAGIC + LeBytes(|slots|, 4);
    buf := head + Zeros(PAGE_SIZE - ENTRIES_OFFSET);
    for i := 0 to |slots|
      invariant buf == head + EntryBytes(slots[..i]) + Zeros(PAGE_SIZE - ENTRIES_OFFSET - i * ENTRY_SIZE)
    {
      var at := ENTRIES_OFFSET + i * ENTRY_SIZE;
      assert slots[..i + 1][..i] == slots[..i];
      buf := buf[..at] + SlotBytes(slots[i]) + buf[at + ENTRY_SIZE..];
      assert EntryBytes(slots[..i + 1]) == EntryBytes(slots[..i]) + SlotBytes(slots[i]);
      assert buf[at + ENTRY_SIZE..] == Zeros(PAGE_SIZE - at - ENTRY_SIZE);
    }
    assert slots[..|slots|] == slots;
    var end := ENTRIES_OFFSET + |slots| * ENTRY_SIZE;
    assert buf[..end] == HeaderContent(slots);
    buf := buf[..end] + LeBytes(crc(buf[..end]), 4) + buf[end + 4..];
    assert buf[end + 4..] == Zeros(PAGE_SIZE - end - 4);
  }

  // ---- Devices: a write lasts only once synced, and a crash lands any of its sectors ----

  const SECTOR_SIZE := 512
  const SECTORS := 8

  datatype Pending = Pending(block: nat, image: Image)

  datatype Device = Device(durable: seq<Image>, pending: seq<Pending>)

  predicate DeviceOk(d: Device)
  {
    && (forall b :: 0 <= b < |d.durable| ==> |d.durable[b]| == PAGE_SIZE)
    && (forall i :: 0 <= i < |d.pending| ==> d.pending[i].block < |d.durable| && |d.pending[i].image| == PAGE_SIZE)
  }

  function Sector(m: Image, k: nat): seq<byte>
    requires |m| == PAGE_SIZE && k < SECTORS
  {
    m[k * SECTOR_SIZE..(k + 1) * SECTOR_SIZE]
  }

  predicate SectorFrom(a: Image, b: Image, m: Image, k: nat)
    requires |a| == |b| == |m| == PAGE_SIZE
  {
    k < SECTORS ==> Sector(m, k) == Sector(a, k) || Sector(m, k) == Sector(b, k)
  }

  /** Every sector of `m` comes from `a` or from `b`. */
  ghost predicate Mixed(a: Image, b: Image, m: Image)
  {
    |a| == |b| == |m| == PAGE_SIZE && forall k :: SectorFrom(a, b, m, k)
  }

  lemma {:induction false} MixedWithNew(a: Image, b: Image, m: Image, m': Image)
    requires Mixed(a, b, m) && Mixed(m, b, m')
    ensures Mixed(a, b, m')
  {
    forall k ensures SectorFrom(a, b, m', k) { assert SectorFrom(a, b, m, k) && SectorFrom(m, b, m', k); }
  }

  lemma {:induction false} MixedWithItself(a: Image, m: Image)
    requires Mixed(a, a, m)
    ensures m == a
  {
    forall i | 0 <= i < PAGE_SIZE ensures m[i] == a[i] {
      var k := i / SECTOR_SIZE;
      assert SectorFrom(a, a, m, k);
      assert m[i] == Sector(m, k)[i - k * SECTOR_SIZE] && a[i] == Sector(a, k)[i - k * SECTOR_SIZE];
    }
  }

  /** What a device reads as, and what it holds after a sync: the pending writes in order. */
  function Applied(durable: seq<Image>, pending: seq<Pending>): (r: seq<Image>)
    ensures |r| == |durable|
  {
    if pending == [] then durable else
      var w := pending[|pending| - 1];
      var r := Applied(durable, pending[..|pending| - 1]);
      if w.block < |r| then r[w.block := w.image] else r
  }

  ghost predicate LandsAt(d: Device, landed: seq<Image>, b: nat, k: nat)
    requires DeviceOk(d)
  {
    b < |d.durable| && b < |landed| && |landed[b]| == PAGE_SIZE && k < SECTORS ==>
      || Sector(landed[b], k) == Sector(d.durable[b], k)
      || exists i :: 0 <= i < |d.pending| && d.pending[i].block == b && Sector(landed[b], k) == Sector(d.pending[i].image, k)
  }

  /** What a crash may leave: every sector is durable already or belongs to a pending write. */
  ghost predicate Landed(d: Device, landed: seq<Image>)
    requires DeviceOk(d)
  {
    && |landed| == |d.durable| && (forall b :: 0 <= b < |landed| ==> |landed[b]| == PAGE_SIZE)
    && forall b, k :: LandsAt(d, landed, b, k)
  }

  predicate Lands(mask: seq<bool>, k: nat)
  {
    k < |mask| && mask[k]
  }

  /** Some sectors of `b` written over `a`. */
  function Torn(a: Image, b: Image, mask: seq<bool>): (m: Image)
    requires |a| == |b| == PAGE_SIZE
    ensures |m| == PAGE_SIZE
  {
    seq(PAGE_SIZE, i requires 0 <= i < PAGE_SIZE => if Lands(mask, i / SECTOR_SIZE) then b[i] else a[i])
  }

  lemma {:induction false} TornSector(a: Image, b: Image, mask: seq<bool>, k: nat)
    requires |a| == |b| == PAGE_SIZE && k < SECTORS
    ensures Sector(Torn(a, b, mask), k) == if Lands(mask, k) then Sector(b, k) else Sector(a, k)
  {
    var m, s := Torn(a, b, mask), if Lands(mask, k) then Sector(b, k) else Sector(a, k);
    forall x | 0 <= x < SECTOR_SIZE ensures Sector(m, k)[x] == s[x] {
      var i := k * SECTOR_SIZE + x;
      assert i / SECTOR_SIZE == k && Sector(m, k)[x] == m[i];
    }
  }

  lemma {:induction false} TornIsMixed(a: Image, b: Image, mask: seq<bool>)
    requires |a| == |b| == PAGE_SIZE
    ensures Mixed(a, b, Torn(a, b, mask))
  {
    var m := Torn(a, b, mask);
    forall k: nat ensures SectorFrom(a, b, m, k) {
      if k < SECTORS { TornSector(a, b, mask, k); }
    }
  }

  /** A write that fails may land some of its sectors. */
  method WriteBlock(d: Device, b: nat, image: Image) returns (ok: bool, r: Device)
    requires DeviceOk(d) && b < |d.durable| && |image| == PAGE_SIZE
    ensures DeviceOk(r) && |r.durable| == |d.durable|
    ensures ok ==> r == d.(pending := d.pending + [Pending(b, image)])
    ensures !ok ==> r.pending == d.pending && r.durable == d.durable[b := r.durable[b]] && Mixed(d.durable[b], image, r.durable[b])
  {
    if * { return true, d.(pending := d.pending + [Pending(b, image)]); }
    var mask: seq<bool> := *;
    TornIsMixed(d.durable[b], image, mask);
    return false, d.(durable := d.durable[b := Torn(d.durable[b], image, mask)]);
  }

  lemma {:induction false} AppliedLands(d: Device, n: nat)
    requires DeviceOk(d) && n <= |d.pending|
    ensures Landed(d, Applied(d.durable, d.pending[..n]))
  {
    var r := Applied(d.durable, d.pending[..n]);
    if n > 0 {
      AppliedLands(d, n - 1);
      var r0, w := Applied(d.durable, d.pending[..n - 1]), d.pending[n - 1];
      assert d.pending[..n][..n - 1] == d.pending[..n - 1];
      assert r == r0[w.block := w.image];
      forall b, k ensures LandsAt(d, r, b, k) { assert LandsAt(d, r0, b, k); }
    } else {
      assert d.pending[..0] == [];
    }
  }

  lemma {:induction false} TearLands(d: Device, r: seq<Image>, i: nat, m: Image)
    requires DeviceOk(d) && Landed(d, r) && i < |d.pending| && Mixed(r[d.pending[i].block], d.pending[i].image, m)
    ensures Landed(d, r[d.pending[i].block := m])
  {
    var w, r' := d.pending[i], r[d.pending[i].block := m];
    forall b, k ensures LandsAt(d, r', b, k) {
      assert LandsAt(d, r, b, k) && SectorFrom(r[w.block], w.image, m, k);
    }
  }

  /** A sync that fails may have written some of the pending writes, the last of them in part. */
  method SyncDevice(d: Device) returns (ok: bool, r: Device)
    requires DeviceOk(d)
    ensures DeviceOk(r) && r.pending == [] && Landed(d, r.durable) && (ok ==> r.durable == Applied(d.durable, d.pending))
  {
    var n: int := *;
    assert d.pending[..|d.pending|] == d.pending;
    if n < 0 || n >= |d.pending| {
      AppliedLands(d, |d.pending|);
      return true, Device(Applied(d.durable, d.pending), []);
    }
    var mask: seq<bool> := *;
    var done, w := Applied(d.durable, d.pending[..n]), d.pending[n];
    AppliedLands(d, n);
    TornIsMixed(done[w.block], w.image, mask);
    TearLands(d, done, n, Torn(done[w.block], w.image, mask));
    return false, Device(done[w.block := Torn(done[w.block], w.image, mask)], []);
  }

  // ---- Page checksums ----

  predicate AllZero(m: Image)
  {
    forall i :: 0 <= i < |m| ==> m[i] == 0
  }

  predicate ChecksumOk(m: Image, crc: Crc)
    requires |m| == PAGE_SIZE
  {
    AllZero(m) || ReadU32(m, 0) == crc(m[4..])
  }

  function Stamp(m: Image, crc: Crc): (r: Image)
    requires |m| == PAGE_SIZE
    ensures |r| == PAGE_SIZE
  {
    LeBytes(crc(m[4..]), 4) + m[4..]
  }

  /** The checksum of a zero page body is not zero. */
  predicate NonzeroOnZeros(crc: Crc)
  {
    crc(Zeros(PAGE_SIZE - 4)) != 0
  }

  lemma {:induction false} Stamped(m: Image, crc: Crc)
    requires |m| == PAGE_SIZE && NonzeroOnZeros(crc)
    ensures ChecksumOk(Stamp(m, crc), crc) && !AllZero(Stamp(m, crc)) && Stamp(Stamp(m, crc), crc) == Stamp(m, crc)
  {
    var r := Stamp(m, crc);
    assert r[4..] == m[4..] && r[0..4] == LeBytes(crc(m[4..]), 4);
    LeRead(r, 0, crc(m[4..]));
    if AllZero(r) { ZeroPage(r); }
  }

  lemma {:induction false} ZeroPage(m: Image)
    requires |m| == PAGE_SIZE && AllZero(m)
    ensures m[4..] == Zeros(PAGE_SIZE - 4) && ReadU32(m, 0) == 0
  {
    assert m[0..4] == LeBytes(0, 4) by { assert LeBytes(0, 4) == [0, 0, 0, 0]; }
    LeRead(m, 0, 0);
  }

  /** The checksum tells a torn page from a whole one. */
  ghost predicate Detectable(a: Image, b: Image, crc: Crc)
  {
    forall m :: Mixed(a, b, m) && ChecksumOk(m, crc) ==> m == a || m == b
  }

  // ---- What holds at every moment ----

  /** `before` and `after` are the page images at the last and at the current flush. */
  ghost predicate Sizes(data: Device, dwb: Device, before: seq<Image>, after: seq<Image>, capacity: nat)
  {
    && DeviceOk(data) && DeviceOk(dwb) && Fits(capacity)
    && |before| == |after| == |data.durable| && |dwb.durable| == 1 + capacity
  }

  ghost predicate PageWhole(data: Device, before: seq<Image>, after: seq<Image>, crc: Crc, p: nat)
    requires |before| == |after| == |data.durable|
  {
    p < |before| ==>
      |data.durable[p]| == PAGE_SIZE && ChecksumOk(data.durable[p], crc) && (data.durable[p] == before[p] || data.durable[p] == after[p])
  }

  /** Every page is whole. The buffer may then hold anything. */
  ghost predicate AllWhole(data: Device, before: seq<Image>, after: seq<Image>, crc: Crc)
    requires |before| == |after| == |data.durable|
  {
    data.pending == [] && forall p :: PageWhole(data, before, after, crc, p)
  }

  ghost predicate PageGuarded(data: Device, before: seq<Image>, after: seq<Image>, crc: Crc, p: nat)
    requires |before| == |after| == |data.durable|
  {
    p < |before| ==> Mixed(before[p], after[p], data.durable[p]) && Detectable(before[p], after[p], crc) && ChecksumOk(before[p], crc)
  }

  ghost predicate PendingNew(data: Device, after: seq<Image>, i: nat)
  {
    i < |data.pending| ==> data.pending[i].block < |after| && data.pending[i].image == after[data.pending[i].block]
  }

  ghost predicate SlotHolds(dwb: Device, slots: seq<Slot>, after: seq<Image>, crc: Crc, i: nat)
    requires |dwb.durable| > |slots|
  {
    i < |slots| && slots[i].page < |after| ==>
      var m := after[slots[i].page];
      |m| == PAGE_SIZE && dwb.durable[1 + i] == m && slots[i].crc == crc(m) && !AllZero(m) && ChecksumOk(m, crc) && Stamp(m, crc) == m
  }

  ghost predicate Covered(slots: seq<Slot>, before: seq<Image>, after: seq<Image>, p: nat)
    requires |before| == |after|
  {
    p < |before| && before[p] != after[p] ==> exists i :: 0 <= i < |slots| && slots[i].page == p
  }

  /** Pages may be torn, and the buffer durably holds the new image of every page that may be. */
  ghost predicate Guarded(data: Device, dwb: Device, before: seq<Image>, after: seq<Image>, capacity: nat, crc: Crc, slots: seq<Slot>)
    requires Sizes(data, dwb, before, after, capacity)
  {
    && dwb.pending == [] && DecodeHeader(dwb.durable[0], capacity, crc) == Some(slots)
    && (forall p :: PageGuarded(data, before, after, crc, p)) && (forall i :: PendingNew(data, after, i))
    && (forall i :: SlotHolds(dwb, slots, after, crc, i)) && forall p :: Covered(slots, before, after, p)
  }

  ghost predicate Safe(data: Device, dwb: Device, before: seq<Image>, after: seq<Image>, capacity: nat, crc: Crc)
  {
    Sizes(data, dwb, before, after, capacity)
    && (AllWhole(data, before, after, crc) || exists slots :: Guarded(data, dwb, before, after, capacity, crc, slots))
  }

  // ---- Crashes ----

  lemma {:induction false} LandedIsMixed(data: Device, before: seq<Image>, after: seq<Image>, crc: Crc, landed: seq<Image>, p: nat)
    requires DeviceOk(data) && |before| == |after| == |data.durable| && Landed(data, landed) && p < |before|
    requires PageGuarded(data, before, after, crc, p) && forall i :: PendingNew(data, after, i)
    ensures Mixed(before[p], after[p], landed[p])
  {
    forall k: nat ensures SectorFrom(before[p], after[p], landed[p], k) {
      assert LandsAt(data, landed, p, k) && SectorFrom(before[p], after[p], data.durable[p], k);
      if k < SECTORS && Sector(landed[p], k) != Sector(data.durable[p], k) {
        var i :| 0 <= i < |data.pending| && data.pending[i].block == p && Sector(landed[p], k) == Sector(data.pending[i].image, k);
        assert PendingNew(data, after, i);
      }
    }
  }

  lemma {:induction false} LandedUnchanged(d: Device, landed: seq<Image>)
    requires DeviceOk(d) && d.pending == [] && Landed(d, landed)
    ensures landed == d.durable
  {
    forall b | 0 <= b < |landed| ensures landed[b] == d.durable[b] {
      forall k: nat ensures SectorFrom(d.durable[b], d.durable[b], landed[b], k) { assert LandsAt(d, landed, b, k); }
      MixedWithItself(d.durable[b], landed[b]);
    }
  }

  /** Losing power keeps the storage safe, whatever lands. */
  lemma {:induction false} CrashIsSafe(data: Device, dwb: Device, before: seq<Image>, after: seq<Image>, capacity: nat, crc: Crc, landed: seq<Image>, dwbLanded: seq<Image>)
    requires Safe(data, dwb, before, after, capacity, crc) && Landed(data, landed) && Landed(dwb, dwbLanded)
    ensures Safe(Device(landed, []), Device(dwbLanded, []), before, after, capacity, crc)
  {
    var data', dwb' := Device(landed, []), Device(dwbLanded, []);
    if AllWhole(data, before, after, crc) {
      LandedUnchanged(data, landed);
      forall p ensures PageWhole(data', before, after, crc, p) { assert PageWhole(data, before, after, crc, p); }
    } else {
      var slots :| Guarded(data, dwb, before, after, capacity, crc, slots);
      LandedUnchanged(dwb, dwbLanded);
      forall p: nat ensures PageGuarded(data', before, after, crc, p) {
        assert PageGuarded(data, before, after, crc, p);
        if p < |before| { LandedIsMixed(data, before, after, crc, landed, p); }
      }
      forall i ensures SlotHolds(dwb', slots, after, crc, i) { assert SlotHolds(dwb, slots, after, crc, i); }
      assert Guarded(data', dwb', before, after, capacity, crc, slots);
    }
  }

  // ---- Steps of a flush and of recovery ----

  lemma {:induction false} AppliedMore(durable: seq<Image>, pending: seq<Pending>, w: Pending)
    requires w.block < |durable|
    ensures Applied(durable, pending + [w]) == Applied(durable, pending)[w.block := w.image]
  {
    assert (pending + [w])[..|pending|] == pending;
  }

  function StampAll(batch: seq<Pending>, crc: Crc): (r: seq<Pending>)
    requires forall i :: 0 <= i < |batch| ==> |batch[i].image| == PAGE_SIZE
    ensures |r| == |batch|
  {
    seq(|batch|, i requires 0 <= i < |batch| => Pending(batch[i].block, Stamp(batch[i].image, crc)))
  }

  function SlotsOf(images: seq<Pending>, crc: Crc): (r: seq<Slot>)
    requires forall i :: 0 <= i < |images| ==> images[i].block < 0x1_0000_0000
    ensures |r| == |images|
  {
    seq(|images|, i requires 0 <= i < |images| => Slot(images[i].block, crc(images[i].image)))
  }

  predicate Distinct(ws: seq<Pending>)
  {
    forall i, j :: 0 <= i < j < |ws| ==> ws[i].block != ws[j].block
  }

  lemma {:induction false} AppliedTo(durable: seq<Image>, ws: seq<Pending>, i: nat)
    requires Distinct(ws) && i < |ws| && ws[i].block < |durable|
    ensures Applied(durable, ws)[ws[i].block] == ws[i].image
    decreases |ws|
  {
    if i < |ws| - 1 { AppliedTo(durable, ws[..|ws| - 1], i); }
  }

  lemma {:induction false} AppliedElsewhere(durable: seq<Image>, ws: seq<Pending>, p: nat)
    requires p < |durable|
    ensures Applied(durable, ws)[p] == durable[p] || exists i :: 0 <= i < |ws| && ws[i].block == p
    decreases |ws|
  {
    if ws != [] && ws[|ws| - 1].block != p {
      AppliedElsewhere(durable, ws[..|ws| - 1], p);
      if Applied(durable, ws)[p] != durable[p] {
        var i :| 0 <= i < |ws| - 1 && ws[..|ws| - 1][i].block == p;
        assert ws[i].block == p;
      }
    }
  }

  /** The images of a batch, stamped, are good to write. */
  ghost predicate ImageOk(data: Device, images: seq<Pending>, crc: Crc, i: nat)
  {
    i < |images| ==>
      var m := images[i].image;
      && images[i].block < |data.durable| && images[i].block < 0x1_0000_0000
      && |m| == PAGE_SIZE && ChecksumOk(m, crc) && !AllZero(m) && Stamp(m, crc) == m
      && Detectable(data.durable[images[i].block], m, crc)
  }

  ghost predicate BatchOk(data: Device, images: seq<Pending>, crc: Crc, capacity: nat)
  {
    |images| <= capacity && Distinct(images) && forall i :: ImageOk(data, images, crc, i)
  }

  /** Once the batch is durable in the buffer, its pages may be torn. */
  lemma {:induction false} GuardStarts(data: Device, dwb: Device, images: seq<Pending>, after: seq<Image>, capacity: nat, crc: Crc, slots: seq<Slot>)
    requires Sizes(data, dwb, data.durable, after, capacity) && AllWhole(data, data.durable, data.durable, crc)
    requires BatchOk(data, images, crc, capacity) && images != [] && after == Applied(data.durable, images)
    requires forall i :: 0 <= i < |images| ==> images[i].block < 0x1_0000_0000
    requires dwb.pending == [] && slots == SlotsOf(images, crc) && DecodeHeader(dwb.durable[0], capacity, crc) == Some(slots)
    requires forall i :: 0 <= i < |images| ==> dwb.durable[1 + i] == images[i].image
    ensures Guarded(data, dwb, data.durable, after, capacity, crc, slots)
  {
    var before := data.durable;
    forall p: nat ensures PageGuarded(data, before, after, crc, p) {
      assert PageWhole(data, before, before, crc, p);
      if p < |before| {
        AppliedElsewhere(before, images, p);
        if after[p] == before[p] {
          SelfDetectable(before[p], crc);
        } else {
          var i :| 0 <= i < |images| && images[i].block == p;
          assert ImageOk(data, images, crc, i);
          AppliedTo(before, images, i);
        }
      }
    }
    forall i: nat ensures SlotHolds(dwb, slots, after, crc, i) {
      assert ImageOk(data, images, crc, i);
      if i < |slots| { AppliedTo(before, images, i); }
    }
    forall p: nat ensures Covered(slots, before, after, p) {
      if p < |before| && before[p] != after[p] {
        AppliedElsewhere(before, images, p);
        var i :| 0 <= i < |images| && images[i].block == p;
        assert slots[i].page == p;
      }
    }
  }

  lemma {:induction false} SelfDetectable(a: Image, crc: Crc)
    ensures Detectable(a, a, crc)
  {
    forall m | Mixed(a, a, m) && ChecksumOk(m, crc) ensures m == a { MixedWithItself(a, m); }
  }

  /** Writing the new image of a page keeps the guard, whether the write succeeds or tears the page. */
  lemma {:induction false} GuardedWrite(data: Device, dwb: Device, before: seq<Image>, after: seq<Image>, capacity: nat, crc: Crc, slots: seq<Slot>,
                                        p: nat, ok: bool, data': Device)
    requires Sizes(data, dwb, before, after, capacity) && Guarded(data, dwb, before, after, capacity, crc, slots)
    requires p < |after| && DeviceOk(data') && |data'.durable| == |data.durable|
    requires ok ==> data' == data.(pending := data.pending + [Pending(p, after[p])])
    requires !ok ==> data'.pending == data.pending && data'.durable == data.durable[p := data'.durable[p]]
                     && Mixed(data.durable[p], after[p], data'.durable[p])
    ensures Sizes(data', dwb, before, after, capacity) && Guarded(data', dwb, before, after, capacity, crc, slots)
  {
    forall q: nat ensures PageGuarded(data', before, after, crc, q) {
      assert PageGuarded(data, before, after, crc, q);
      if q == p && !ok { MixedWithNew(before[p], after[p], data.durable[p], data'.durable[p]); }
    }
    forall i: nat ensures PendingNew(data', after, i) { assert PendingNew(data, after, i); }
  }

  lemma {:induction false} GuardedLands(data: Device, dwb: Device, before: seq<Image>, after: seq<Image>, capacity: nat, crc: Crc, slots: seq<Slot>, landed: seq<Image>)
    requires Sizes(data, dwb, before, after, capacity) && Guarded(data, dwb, before, after, capacity, crc, slots) && Landed(data, landed)
    ensures Sizes(Device(landed, []), dwb, before, after, capacity) && Guarded(Device(landed, []), dwb, before, after, capacity, crc, slots)
  {
    var data' := Device(landed, []);
    forall p: nat ensures PageGuarded(data', before, after, crc, p) {
      assert PageGuarded(data, before, after, crc, p);
      if p < |before| { LandedIsMixed(data, before, after, crc, landed, p); }
    }
  }

  // ---- The page store ----

  datatype Outcome = Done | Poisoned | Failed | PowerLost

  class PageStore {
    const capacity: nat
    const crc: Crc
    var data: Device
    var dwb: Device
    var running: bool
    var poisoned: bool
    ghost var before: seq<Image>
    ghost var after: seq<Image>

    /** While the store runs and is not poisoned, no page is torn: the batch in the buffer is not needed. */
    ghost predicate Inv()
      reads this
    {
      && NonzeroOnZeros(crc) && 0 < capacity && Safe(data, dwb, before, after, capacity, crc)
      && (running && !poisoned ==> AllWhole(data, before, after, crc))
    }

    /** A store over pages that are whole, such as a new device of zeros, with anything in the buffer. */
    constructor (capacity: nat, crc: Crc, pages: seq<Image>, buffer: seq<Image>)
      requires NonzeroOnZeros(crc) && 0 < capacity && Fits(capacity)
      requires |buffer| == 1 + capacity && forall b :: 0 <= b < |buffer| ==> |buffer[b]| == PAGE_SIZE
      requires forall p :: 0 <= p < |pages| ==> |pages[p]| == PAGE_SIZE && ChecksumOk(pages[p], crc)
      ensures Inv() && running && !poisoned && this.capacity == capacity && this.crc == crc
      ensures data == Device(pages, []) && dwb == Device(buffer, []) && before == pages && after == pages
    {
      this.capacity, this.crc := capacity, crc;
      data, dwb, running, poisoned := Device(pages, []), Device(buffer, []), true, false;
      before, after := pages, pages;
      new;
      forall p ensures PageWhole(data, before, after, this.crc, p) { }
    }

    /** Whatever the devices hold when the power comes back. */
    method Crash(landed: seq<Image>, dwbLanded: seq<Image>)
      requires Inv() && Landed(data, landed) && Landed(dwb, dwbLanded)
      modifies this`data, this`dwb, this`running, this`poisoned
      ensures Inv() && !running && !poisoned && data == Device(landed, []) && dwb == Device(dwbLanded, [])
    {
      CrashIsSafe(data, dwb, before, after, capacity, crc, landed, dwbLanded);
      data, dwb, running, poisoned := Device(landed, []), Device(dwbLanded, []), false, false;
    }

    /** `write_batch`: the slots, then the header that names them, then one sync. Only while no page is torn. */
    method WriteBatch(images: seq<Pending>) returns (ok: bool, slots: seq<Slot>)
      requires Inv() && AllWhole(data, before, after, crc) && |images| <= capacity
      requires forall i :: 0 <= i < |images| ==> images[i].block < 0x1_0000_0000 && |images[i].image| == PAGE_SIZE
      modifies this`dwb
      ensures Inv() && slots == SlotsOf(images, crc)
      ensures ok ==> dwb.pending == [] && DecodeHeader(dwb.durable[0], capacity, crc) == (if images == [] then None else Some(slots))
                     && forall i :: 0 <= i < |images| ==> dwb.durable[1 + i] == images[i].image
    {
      slots := SlotsOf(images, crc);
      var d := dwb;
      for i := 0 to |images|
        invariant DeviceOk(d) && |d.durable| == 1 + capacity && dwb == old(dwb)
        invariant forall j :: 0 <= j < i ==> Applied(d.durable, d.pending)[1 + j] == images[j].image
      {
        var written;
        ghost var d0 := d;
        written, d := WriteBlock(d, 1 + i, images[i].image);
        if !written {
          dwb := d;
          return false, slots;
        }
        AppliedMore(d0.durable, d0.pending, Pending(1 + i, images[i].image));
      }
      var header := FillHeader(slots, crc);
      HeaderRoundTrip(slots, capacity, crc);
      ghost var d0 := d;
      var written, synced;
      written, d := WriteBlock(d, 0, header);
      if written {
        AppliedMore(d0.durable, d0.pending, Pending(0, header));
        synced, d := SyncDevice(d);
      }
      dwb := d;
      ok := written && synced;
    }

    /** `clear_batch`: an empty header. */
    method ClearBatch() returns (ok: bool)
      requires Inv() && AllWhole(data, before, after, crc)
      modifies this`dwb
      ensures Inv() && (ok ==> DecodeHeader(dwb.durable[0], capacity, crc) == None)
    {
      var slots;
      ok, slots := WriteBatch([]);
    }

    /** `flush_pages_before`, from the poison check on: the buffer first, then the pages, then the buffer is
        cleared. A failure after the batch is durable poisons the store. */
    method Flush(batch: seq<Pending>) returns (o: Outcome)
      requires Inv() && running && |batch| <= capacity && Distinct(batch)
      requires forall i :: 0 <= i < |batch| ==> |batch[i].image| == PAGE_SIZE
      requires forall i :: ImageOk(data, StampAll(batch, crc), crc, i)
      modifies this
      ensures Inv()
      ensures o == Poisoned <==> old(poisoned)
      ensures o == Poisoned ==> data == old(data) && dwb == old(dwb) && poisoned
      ensures o == Done ==> data == Device(Applied(old(data.durable), StampAll(batch, crc)), [])
      ensures o != Poisoned ==> before == old(data.durable) && after == Applied(old(data.durable), StampAll(batch, crc))
      ensures running <==> o != PowerLost
    {
      if poisoned { return Poisoned; }
      var images := StampAll(batch, crc);
      before, after := data.durable, data.durable;
      assert AllWhole(data, before, after, crc) by {
        forall p: nat ensures PageWhole(data, before, after, crc, p) { assert PageWhole(data, old(before), old(after), crc, p); }
      }
      forall i | 0 <= i < |images| ensures images[i].block < 0x1_0000_0000 && |images[i].image| == PAGE_SIZE {
        assert ImageOk(data, images, crc, i);
      }
      after := Applied(data.durable, images);
      forall p: nat ensures PageWhole(data, before, after, crc, p) { assert PageWhole(data, before, before, crc, p); }
      if images == [] { return Done; }
      var ok, slots := WriteBatch(images);
      if !ok { return Failed; }
      GuardStarts(data, dwb, images, after, capacity, crc, slots);
      o := FlushPages(images, slots);
    }

    /** The second half of a flush. Power may be lost after any step. */
    method FlushPages(images: seq<Pending>, ghost slots: seq<Slot>) returns (o: Outcome)
      requires NonzeroOnZeros(crc) && 0 < capacity && running && !poisoned
      requires Sizes(data, dwb, before, after, capacity) && Guarded(data, dwb, before, after, capacity, crc, slots)
      requires data == Device(before, []) && after == Applied(before, images) && Distinct(images) && forall i :: ImageOk(data, images, crc, i)
      modifies this`data, this`dwb, this`poisoned, this`running
      ensures Inv() && o != Poisoned && (o == Done ==> data == Device(after, [])) && (running <==> o != PowerLost)
    {
      var d := data;
      for i := 0 to |images|
        invariant data == old(data) && dwb == old(dwb) && running && d == Device(before, images[..i])
        invariant Sizes(d, dwb, before, after, capacity) && Guarded(d, dwb, before, after, capacity, crc, slots)
      {
        if * {
          data, running := d, false;
          return PowerLost;
        }
        assert ImageOk(data, images, crc, i);
        AppliedTo(before, images, i);
        ghost var d0 := d;
        var written;
        written, d := WriteBlock(d, images[i].block, images[i].image);
        GuardedWrite(d0, dwb, before, after, capacity, crc, slots, images[i].block, written, d);
        if !written {
          data, poisoned := d, true;
          return Failed;
        }
        assert images[..i + 1] == images[..i] + [images[i]];
      }
      assert images[..|images|] == images;
      if * {
        data, running := d, false;
        return PowerLost;
      }
      ghost var d0 := d;
      var synced;
      synced, d := SyncDevice(d);
      data := d;
      if !synced {
        GuardedLands(d0, dwb, before, after, capacity, crc, slots, d.durable);
        assert data == Device(d.durable, []);
        poisoned := true;
        return Failed;
      }
      FlushedIsWhole(Device(before, []), dwb, before, after, capacity, crc, slots);
      var cleared := ClearBatch();
      if !cleared {
        poisoned := true;
        return Failed;
      }
      return Done;
    }

    /** `recover_double_write`: put back the new image of every page whose checksum fails. When it succeeds,
        every page is its whole old image or its whole new one. When it fails or loses power, it can start over. */
    method Recover() returns (o: Outcome)
      requires Inv() && !running && data.pending == [] && dwb.pending == []
      modifies this`data, this`dwb, this`running, this`poisoned
      ensures Inv() && o != Poisoned && (running <==> o == Done)
      ensures o == Done ==> !poisoned && AllWhole(data, before, after, crc)
    {
      poisoned := false;
      var batch := DecodeHeader(dwb.durable[0], capacity, crc);
      if batch.None? {
        running := true;
        return Done;
      }
      var restored;
      o, restored := RestorePages(batch.value);
      if o != Done { return o; }
      var d := data;
      ghost var d0 := d;
      var synced;
      synced, d := SyncDevice(d);
      SyncedIsSafe(d0, dwb, before, after, capacity, crc, batch.value, synced, d);
      data := d;
      if !synced { return Failed; }
      if * { return PowerLost; }
      for i := 0 to |restored|
        invariant data == d && dwb == old(dwb) && before == old(before) && after == old(after)
      {
        if !ChecksumOk(data.durable[restored[i]], crc) { return Failed; }
      }
      var cleared := ClearBatch();
      if !cleared { return Failed; }
      running := true;
      return Done;
    }

    /** The loop over the entries of the batch. */
    method RestorePages(slots: seq<Slot>) returns (o: Outcome, restored: seq<nat>)
      requires Inv() && !running && data.pending == [] && dwb.pending == []
      requires DecodeHeader(dwb.durable[0], capacity, crc) == Some(slots)
      modifies this`data
      ensures Inv() && o in {Done, Failed, PowerLost} && |data.durable| == |old(data.durable)|
      ensures forall i :: 0 <= i < |restored| ==> restored[i] < |data.durable|
      ensures o == Done ==> Repaired(data, dwb, before, after, capacity, crc, slots, |slots|)
    {
      restored := [];
      var d := data;
      for i := 0 to |slots|
        invariant data == old(data) && |d.durable| == |data.durable| && forall j :: 0 <= j < |restored| ==> restored[j] < |d.durable|
        invariant Repaired(d, dwb, before, after, capacity, crc, slots, i)
      {
        if * {
          data := d;
          return PowerLost, restored;
        }
        var ok, wrote;
        ok, wrote, d := RestoreEntry(d, dwb, capacity, crc, slots, i, before, after);
        if !ok {
          data := d;
          return Failed, restored;
        }
        if wrote { restored := restored + [slots[i].page]; }
      }
      data := d;
      return Done, restored;
    }
  }

  /** One entry of the batch: compare the slot with its checksum, then the page with its own. */
  method RestoreEntry(data: Device, dwb: Device, capacity: nat, crc: Crc, slots: seq<Slot>, i: nat, ghost before: seq<Image>, ghost after: seq<Image>)
    returns (ok: bool, wrote: bool, data': Device)
    requires Repaired(data, dwb, before, after, capacity, crc, slots, i) && i < |slots| <= capacity
    ensures Safe(data', dwb, before, after, capacity, crc) && |data'.durable| == |data.durable|
    ensures ok ==> Repaired(data', dwb, before, after, capacity, crc, slots, i + 1) && (wrote ==> slots[i].page < |data.durable|)
  {
    data', wrote := data, false;
    var slot, p := dwb.durable[1 + i], slots[i].page;
    var actual := crc(slot);
    if actual != slots[i].crc {
      NotThisSlot(data, dwb, before, after, capacity, crc, slots, i);
      ok := forall j :: 0 <= j < |slots| ==> slots[j].crc != actual;
      return;
    }
    if AllZero(slot) || p >= |data.durable| {
      NotThisSlot(data, dwb, before, after, capacity, crc, slots, i);
      return true, false, data;
    }
    AppliedSizes(data);
    var current := Applied(data.durable, data.pending)[p];
    if ChecksumOk(current, crc) {
      SkipStep(data, dwb, before, after, capacity, crc, slots, i);
      return true, false, data;
    }
    ok, data' := WriteBlock(data, p, Stamp(slot, crc));
    RestoreStep(data, dwb, before, after, capacity, crc, slots, i, ok, data');
    wrote := ok;
  }

  // ---- Recovery's loop ----

  ghost predicate WholeNow(data: Device, before: seq<Image>, after: seq<Image>, crc: Crc, p: nat)
    requires |before| == |after| == |data.durable|
  {
    p < |before| ==>
      var m := Applied(data.durable, data.pending)[p];
      |m| == PAGE_SIZE && ChecksumOk(m, crc) && (m == before[p] || m == after[p])
  }

  ghost predicate EntryDone(data: Device, before: seq<Image>, after: seq<Image>, crc: Crc, slots: seq<Slot>, n: nat, i: nat)
    requires |before| == |after| == |data.durable|
  {
    i < n && i < |slots| ==> WholeNow(data, before, after, crc, slots[i].page)
  }

  /** Either no page was torn, or the pages of the first `n` entries read as whole ones again. */
  ghost predicate Repaired(data: Device, dwb: Device, before: seq<Image>, after: seq<Image>, capacity: nat, crc: Crc, slots: seq<Slot>, n: nat)
  {
    Sizes(data, dwb, before, after, capacity)
    && (|| AllWhole(data, before, after, crc)
        || (Guarded(data, dwb, before, after, capacity, crc, slots) && forall i :: EntryDone(data, before, after, crc, slots, n, i)))
  }

  lemma {:induction false} AppliedSizes(d: Device)
    requires DeviceOk(d)
    ensures forall b :: 0 <= b < |d.durable| ==> |Applied(d.durable, d.pending)[b]| == PAGE_SIZE
  {
    AppliedLands(d, |d.pending|);
    assert d.pending[..|d.pending|] == d.pending;
  }

  lemma {:induction false} FlushedIsWhole(data: Device, dwb: Device, before: seq<Image>, after: seq<Image>, capacity: nat, crc: Crc, slots: seq<Slot>)
    requires Sizes(data, dwb, before, after, capacity) && Guarded(data, dwb, before, after, capacity, crc, slots)
    ensures AllWhole(Device(after, []), before, after, crc)
  {
    forall p: nat ensures PageWhole(Device(after, []), before, after, crc, p) {
      assert PageGuarded(data, before, after, crc, p) && Covered(slots, before, after, p);
      if p < |before| && before[p] != after[p] {
        var i :| 0 <= i < |slots| && slots[i].page == p;
        assert SlotHolds(dwb, slots, after, crc, i);
      }
    }
  }

  /** An entry that is passed over names no page of the device, or nothing is torn. */
  lemma {:induction false} NotThisSlot(data: Device, dwb: Device, before: seq<Image>, after: seq<Image>, capacity: nat, crc: Crc, slots: seq<Slot>, i: nat)
    requires Repaired(data, dwb, before, after, capacity, crc, slots, i) && i < |slots| <= capacity
    requires crc(dwb.durable[1 + i]) != slots[i].crc || AllZero(dwb.durable[1 + i]) || slots[i].page >= |data.durable|
    ensures Repaired(data, dwb, before, after, capacity, crc, slots, i + 1)
  {
    if !AllWhole(data, before, after, crc) {
      var n := i + 1;
      forall j: nat ensures EntryDone(data, before, after, crc, slots, n, j) {
        assert EntryDone(data, before, after, crc, slots, i, j) && SlotHolds(dwb, slots, after, crc, j);
      }
    }
  }

  lemma {:induction false} ReadIsMixed(data: Device, dwb: Device, before: seq<Image>, after: seq<Image>, capacity: nat, crc: Crc, slots: seq<Slot>, p: nat)
    requires Sizes(data, dwb, before, after, capacity) && Guarded(data, dwb, before, after, capacity, crc, slots) && p < |before|
    ensures Mixed(before[p], after[p], Applied(data.durable, data.pending)[p])
  {
    AppliedLands(data, |data.pending|);
    assert data.pending[..|data.pending|] == data.pending;
    assert PageGuarded(data, before, after, crc, p);
    LandedIsMixed(data, before, after, crc, Applied(data.durable, data.pending), p);
  }

  /** A page whose checksum is right is whole. */
  lemma {:induction false} SkipStep(data: Device, dwb: Device, before: seq<Image>, after: seq<Image>, capacity: nat, crc: Crc, slots: seq<Slot>, i: nat)
    requires Repaired(data, dwb, before, after, capacity, crc, slots, i) && i < |slots| <= capacity && slots[i].page < |data.durable|
    requires |Applied(data.durable, data.pending)[slots[i].page]| == PAGE_SIZE && ChecksumOk(Applied(data.durable, data.pending)[slots[i].page], crc)
    ensures Repaired(data, dwb, before, after, capacity, crc, slots, i + 1)
  {
    if !AllWhole(data, before, after, crc) {
      var p := slots[i].page;
      ReadIsMixed(data, dwb, before, after, capacity, crc, slots, p);
      assert PageGuarded(data, before, after, crc, p);
      var n := i + 1;
      forall j: nat ensures EntryDone(data, before, after, crc, slots, n, j) { assert EntryDone(data, before, after, crc, slots, i, j); }
    }
  }

  /** A page whose checksum is wrong gets its new image from the slot. */
  lemma {:induction false} RestoreStep(data: Device, dwb: Device, before: seq<Image>, after: seq<Image>, capacity: nat, crc: Crc, slots: seq<Slot>, i: nat, ok: bool, data': Device)
    requires Repaired(data, dwb, before, after, capacity, crc, slots, i) && i < |slots| <= capacity && slots[i].page < |data.durable|
    requires crc(dwb.durable[1 + i]) == slots[i].crc && !AllZero(dwb.durable[1 + i])
    requires |Applied(data.durable, data.pending)[slots[i].page]| == PAGE_SIZE && !ChecksumOk(Applied(data.durable, data.pending)[slots[i].page], crc)
    requires DeviceOk(data') && |data'.durable| == |data.durable|
    requires var p, m := slots[i].page, Stamp(dwb.durable[1 + i], crc);
             && (ok ==> data' == data.(pending := data.pending + [Pending(p, m)]))
             && (!ok ==> data'.pending == data.pending && data'.durable == data.durable[p := data'.durable[p]]
                         && Mixed(data.durable[p], m, data'.durable[p]))
    ensures Safe(data', dwb, before, after, capacity, crc)
    ensures ok ==> Repaired(data', dwb, before, after, capacity, crc, slots, i + 1)
  {
    var p := slots[i].page;
    assert AllWhole(data, before, after, crc) ==> PageWhole(data, before, after, crc, p);
    assert SlotHolds(dwb, slots, after, crc, i);
    GuardedWrite(data, dwb, before, after, capacity, crc, slots, p, ok, data');
    if ok {
      AppliedMore(data.durable, data.pending, Pending(p, after[p]));
      var n := i + 1;
      forall j: nat ensures EntryDone(data', before, after, crc, slots, n, j) { assert EntryDone(data, before, after, crc, slots, i, j); }
    }
  }

  /** After the sync no page is torn; a sync that fails leaves the guard in place. */
  lemma {:induction false} SyncedIsSafe(data: Device, dwb: Device, before: seq<Image>, after: seq<Image>, capacity: nat, crc: Crc, slots: seq<Slot>, synced: bool, data': Device)
    requires Repaired(data, dwb, before, after, capacity, crc, slots, |slots|)
    requires DeviceOk(data') && data'.pending == [] && Landed(data, data'.durable) && (synced ==> data'.durable == Applied(data.durable, data.pending))
    ensures Safe(data', dwb, before, after, capacity, crc) && (synced ==> AllWhole(data', before, after, crc))
  {
    if AllWhole(data, before, after, crc) {
      LandedUnchanged(data, data'.durable);
      assert data' == data;
    } else {
      GuardedLands(data, dwb, before, after, capacity, crc, slots, data'.durable);
      assert data' == Device(data'.durable, []);
      if synced {
        forall p: nat ensures PageWhole(data', before, after, crc, p) {
          if p < |before| { RepairedPage(data, dwb, before, after, capacity, crc, slots, p); }
        }
      }
    }
  }

  lemma {:induction false} RepairedPage(data: Device, dwb: Device, before: seq<Image>, after: seq<Image>, capacity: nat, crc: Crc, slots: seq<Slot>, p: nat)
    requires Sizes(data, dwb, before, after, capacity) && Guarded(data, dwb, before, after, capacity, crc, slots) && p < |before|
    requires forall i :: EntryDone(data, before, after, crc, slots, |slots|, i)
    ensures WholeNow(data, before, after, crc, p)
  {
    assert Covered(slots, before, after, p) && PageGuarded(data, before, after, crc, p);
    if before[p] == after[p] {
      ReadIsMixed(data, dwb, before, after, capacity, crc, slots, p);
      MixedWithItself(before[p], Applied(data.durable, data.pending)[p]);
    } else {
      var i :| 0 <= i < |slots| && slots[i].page == p;
      assert EntryDone(data, before, after, crc, slots, |slots|, i);
    }
  }
}
