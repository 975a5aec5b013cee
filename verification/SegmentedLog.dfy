/** The segmented write-ahead log refines one growing sequence of records, across appends, flushes,
    segment rolls, truncation, power failures and reopening. */
module SegmentedLog {
  import opened Bytes
  import opened LogRecords
  import opened Options
  import opened LogCodec

  const HEADER_LEN := 16
  /** "FDBWAL01" */
  const MAGIC: seq<byte> := [0x46, 0x44, 0x42, 0x57, 0x41, 0x4C, 0x30, 0x31]

  // ---- Records as bytes ----

  /** A record with the bytes it was written as. */
  datatype Entry = Entry(rec: Record, bytes: seq<byte>)

  predicate EntryOk(crc: Checksum, e: Entry)
  {
    Encodable(e.rec) && e.bytes == Encode(crc, e.rec)
  }

  lemma {:induction false} EntryDecodes(crc: Checksum, e: Entry, before: seq<byte>, rest: seq<byte>, b: seq<byte>, pos: nat)
    requires EntryOk(crc, e) && b == before + e.bytes + rest && pos == |before|
    ensures Decode(crc, b, pos) == Some((e.rec, |e.bytes|))
  {
    RecordRoundTrip(crc, e.rec, before, rest);
  }

  lemma {:induction false} EntryIsLong(crc: Checksum, e: Entry)
    requires EntryOk(crc, e)
    ensures MIN_RECORD_LEN <= |e.bytes|
  {
  }

  function Concat(log: seq<Entry>): (b: seq<byte>)
  {
    if log == [] then [] else Concat(log[..|log| - 1]) + log[|log| - 1].bytes
  }

  /** The LSN of record `i`: a byte offset into the log as if it were one file. */
  function LsnAt(log: seq<Entry>, i: nat): nat
    requires i <= |log|
  {
    HEADER_LEN + |Concat(log[..i])|
  }

  predicate RecordOk(crc: Checksum, log: seq<Entry>, i: int)
  {
    0 <= i < |log| ==> EntryOk(crc, log[i]) && log[i].rec.lsn == LsnAt(log, i)
  }

  /** Every record is written as its encoding and carries its own LSN. */
  ghost predicate Numbered(crc: Checksum, log: seq<Entry>)
  {
    forall i :: RecordOk(crc, log, i)
  }

  lemma {:induction false} ConcatSplit(log: seq<Entry>, i: nat)
    requires i <= |log|
    ensures Concat(log) == Concat(log[..i]) + Concat(log[i..])
    decreases |log|
  {
    if i == |log| {
      assert log[..i] == log;
    } else {
      var front := log[..|log| - 1];
      ConcatSplit(front, i);
      assert front[..i] == log[..i] && log[i..][..|log[i..]| - 1] == front[i..];
    }
  }

  lemma {:induction false} ConcatOne(e: Entry)
    ensures Concat([e]) == e.bytes
  {
    assert [e][..0] == [];
  }

  /** LSNs grow with position. */
  lemma {:induction false} LsnGrows(log: seq<Entry>, i: nat, j: nat)
    requires i <= j <= |log|
    ensures LsnAt(log, j) == LsnAt(log, i) + |Concat(log[i..j])|
  {
    ConcatSplit(log[..j], i);
    assert log[..j][..i] == log[..i] && log[..j][i..] == log[i..j];
  }

  lemma {:induction false} LsnNext(crc: Checksum, log: seq<Entry>, i: nat)
    requires i < |log| && EntryOk(crc, log[i])
    ensures LsnAt(log, i + 1) == LsnAt(log, i) + |log[i].bytes| && MIN_RECORD_LEN <= |log[i].bytes|
  {
    assert log[..i + 1][..i] == log[..i];
    EntryIsLong(crc, log[i]);
  }

  lemma {:induction false} LsnStrict(crc: Checksum, log: seq<Entry>, i: nat, j: nat)
    requires Numbered(crc, log) && i < j <= |log|
    ensures LsnAt(log, i) < LsnAt(log, j)
  {
    assert RecordOk(crc, log, i);
    LsnNext(crc, log, i);
    LsnGrows(log, i + 1, j);
  }

  lemma {:induction false} NumberedPrefix(crc: Checksum, log: seq<Entry>, n: nat)
    requires Numbered(crc, log) && n <= |log|
    ensures Numbered(crc, log[..n])
  {
    forall i ensures RecordOk(crc, log[..n], i) {
      assert RecordOk(crc, log, i);
      if 0 <= i < n { assert log[..n][..i] == log[..i]; }
    }
  }

  lemma {:induction false} NumberedMore(crc: Checksum, log: seq<Entry>, e: Entry)
    requires Numbered(crc, log) && EntryOk(crc, e) && e.rec.lsn == LsnAt(log, |log|)
    ensures Numbered(crc, log + [e])
  {
    var more := log + [e];
    forall i ensures RecordOk(crc, more, i) {
      assert RecordOk(crc, log, i);
      if 0 <= i <= |log| { assert more[..i] == log[..i]; }
    }
  }

  /** Record `i` of a run of records decodes where its bytes begin. */
  lemma {:induction false} DecodesAt(crc: Checksum, before: seq<byte>, log: seq<Entry>, i: nat, rest: seq<byte>, b: seq<byte>, pos: nat)
    requires i < |log| && EntryOk(crc, log[i]) && b == before + Concat(log) + rest && pos == |before| + |Concat(log[..i])|
    ensures Decode(crc, b, pos) == Some((log[i].rec, |log[i].bytes|))
    ensures Concat(log[..i + 1]) == Concat(log[..i]) + log[i].bytes
  {
    ConcatSplit(log, i + 1);
    assert log[..i + 1][..i] == log[..i];
    var head, tail := before + Concat(log[..i]), Concat(log[i + 1..]) + rest;
    Regroup(before, Concat(log[..i]), log[i].bytes, Concat(log[i + 1..]), rest);
    EntryDecodes(crc, log[i], head, tail, b, pos);
  }

  lemma {:induction false} Regroup(a: seq<byte>, b: seq<byte>, c: seq<byte>, d: seq<byte>, e: seq<byte>)
    ensures a + (b + c + d) + e == (a + b) + c + (d + e)
  {
  }

  /** What an interrupted write can leave behind the last whole record. */
  ghost predicate Torn(crc: Checksum, tail: seq<byte>)
  {
    tail == [] || exists e, k: nat :: TornOf(crc, tail, e, k)
  }

  ghost predicate TornOf(crc: Checksum, tail: seq<byte>, e: Entry, k: nat)
  {
    EntryOk(crc, e) && k < |e.bytes| && tail == e.bytes[..k]
  }

  lemma {:induction false} StopsAtTorn(crc: Checksum, before: seq<byte>, tail: seq<byte>, b: seq<byte>, pos: nat)
    requires Torn(crc, tail) && b == before + tail && pos == |before|
    ensures Decode(crc, b, pos) == None
  {
    if tail != [] {
      var e, k: nat :| TornOf(crc, tail, e, k);
      TornRecord(crc, e.rec, before, k);
    }
  }

  /** Any prefix of the bytes of some records is some whole records and a torn one. */
  lemma {:induction false} PrefixOfConcat(crc: Checksum, log: seq<Entry>, k: nat) returns (m: nat, tail: seq<byte>)
    requires (forall i :: 0 <= i < |log| ==> EntryOk(crc, log[i])) && k <= |Concat(log)|
    ensures m <= |log| && Torn(crc, tail) && Concat(log)[..k] == Concat(log[..m]) + tail
    decreases |log|
  {
    if log == [] {
      return 0, [];
    }
    var front, last := log[..|log| - 1], log[|log| - 1];
    if k <= |Concat(front)| {
      m, tail := PrefixOfConcat(crc, front, k);
      assert front[..m] == log[..m];
    } else if k < |Concat(log)| {
      m, tail := |log| - 1, last.bytes[..k - |Concat(front)|];
      assert TornOf(crc, tail, last, k - |Concat(front)|);
    } else {
      m, tail := |log|, [];
      assert log[..m] == log;
    }
  }

  // ---- The newest LSN of each transaction ----

  function LastMap(log: seq<Entry>): map<TxnId, Lsn>
  {
    if log == [] then map[] else LastMap(log[..|log| - 1])[log[|log| - 1].rec.txn := log[|log| - 1].rec.lsn]
  }

  lemma {:induction false} LastMapJoin(a: seq<Entry>, b: seq<Entry>)
    ensures LastMap(a + b) == LastMap(a) + LastMap(b)
    decreases |b|
  {
    if b == [] {
      assert a + b == a;
    } else {
      LastMapJoin(a, b[..|b| - 1]);
      assert (a + b)[..|a + b| - 1] == a + b[..|b| - 1];
    }
  }

  // ---- Segments ----

  function Header(start: nat): (h: seq<byte>)
    ensures |h| == HEADER_LEN
  {
    MAGIC + LeBytes(start, 8)
  }

  /** `read_segment_header`. */
  function ReadHeader(b: seq<byte>): Option<nat>
  {
    if |b| < HEADER_LEN || b[..8] != MAGIC then None else Some(FromLe(b[8..16]))
  }

  lemma {:induction false} HeaderReads(start: nat, rest: seq<byte>)
    requires start < 0x1_0000_0000_0000_0000
    ensures ReadHeader(Header(start) + rest) == Some(start)
  {
    var b := Header(start) + rest;
    Widths();
    LeRoundTrip(start, 8);
    assert b[..8] == MAGIC && b[8..16] == LeBytes(start, 8);
  }

  function SegmentBytes(log: seq<Entry>, i: nat, j: nat): seq<byte>
    requires i <= j <= |log|
  {
    Header(LsnAt(log, i)) + Concat(log[i..j])
  }

  /** Decoding at a record boundary gives that record, and nothing at the end of the whole records. */
  method DecodeNext(crc: Checksum, b: seq<byte>, pos: nat, ghost header: seq<byte>, ghost log: seq<Entry>, ghost tail: seq<byte>, ghost i: nat)
    returns (d: Option<(Record, nat)>)
    requires b == header + Concat(log) + tail && Torn(crc, tail) && i <= |log| && pos == |header| + |Concat(log[..i])|
    requires i < |log| ==> EntryOk(crc, log[i])
    ensures d == if i < |log| then Some((log[i].rec, |log[i].bytes|)) else None
  {
    DecodesIn(crc, b, pos, header, log, tail, i);
    d := Decode(crc, b, pos);
  }

  lemma {:induction false} DecodesIn(crc: Checksum, b: seq<byte>, pos: nat, header: seq<byte>, log: seq<Entry>, tail: seq<byte>, i: nat)
    requires b == header + Concat(log) + tail && Torn(crc, tail) && i <= |log| && pos == |header| + |Concat(log[..i])|
    requires i < |log| ==> EntryOk(crc, log[i])
    ensures Decode(crc, b, pos) == if i < |log| then Some((log[i].rec, |log[i].bytes|)) else None
  {
    if i < |log| {
      DecodesAt(crc, header, log, i, tail, b, pos);
    } else {
      assert log[..i] == log;
      StopsAtTorn(crc, header + Concat(log), tail, b, pos);
    }
  }

  lemma {:induction false} OneMore(log: seq<Entry>, i: nat)
    requires i < |log|
    ensures Concat(log[..i + 1]) == Concat(log[..i]) + log[i].bytes
    ensures LastMap(log[..i + 1]) == LastMap(log[..i])[log[i].rec.txn := log[i].rec.lsn]
  {
    assert log[..i + 1][..i] == log[..i];
  }

  /** `scan_decoded_records`: the whole records of a segment, and where they end. */
  method ScanRecords(crc: Checksum, b: seq<byte>, ghost header: seq<byte>, ghost log: seq<Entry>, ghost tail: seq<byte>)
    returns (pos: nat, last: map<TxnId, Lsn>)
    requires |header| == HEADER_LEN && b == header + Concat(log) + tail && Torn(crc, tail)
    requires forall i :: 0 <= i < |log| ==> EntryOk(crc, log[i])
    ensures pos == HEADER_LEN + |Concat(log)| && last == LastMap(log)
  {
    pos, last := HEADER_LEN, map[];
    ghost var i := 0;
    while true
      invariant i <= |log| && pos == HEADER_LEN + |Concat(log[..i])| && last == LastMap(log[..i])
      decreases |log| - i
    {
      var d := DecodeNext(crc, b, pos, header, log, tail, i);
      if d.None? {
        assert log[..i] == log;
        return;
      }
      OneMore(log, i);
      last := last[d.value.0.txn := d.value.0.lsn];
      pos := pos + d.value.1;
      i := i + 1;
    }
  }
}
