/** The bytes of a log record. The checksum is any function of the bytes before it. */
module LogCodec {
  import opened Bytes
  import opened LogRecords
  import opened Options

  type Checksum = seq<byte> -> U32

  /** Length at both ends, three 8-byte fields, the tag and the checksum. */
  const MIN_RECORD_LEN := 37

  // ---- Encoding ----

  function Tag(k: Kind): byte
  {
    match k
    case Begin => 0
    case Commit => 1
    case Abort => 2
    case End => 3
    case Update(_, _, _, _) => 4
    case AllocPage(_) => 5
    case Clr(_, _, _, _) => 6
    case CheckpointBegin => 7
    case CheckpointEnd(_, _) => 8
  }

  predicate NonNegative(pairs: seq<(int, int)>)
  {
    forall i :: 0 <= i < |pairs| ==> 0 <= pairs[i].0 && 0 <= pairs[i].1
  }

  function EncodePairs(pairs: seq<(int, int)>, width: nat): seq<byte>
    requires NonNegative(pairs)
  {
    if pairs == [] then [] else LeBytes(pairs[0].0, width) + LeBytes(pairs[0].1, 8) + EncodePairs(pairs[1..], width)
  }

  function Prefixed(b: seq<byte>): seq<byte>
  {
    LeBytes(|b|, 4) + b
  }

  /** `encode_payload`. */
  function EncodePayload(k: Kind): seq<byte>
  {
    match k
    case Update(page, offset, before, after) => LeBytes(page, 4) + LeBytes(offset, 2) + Prefixed(before) + Prefixed(after)
    case AllocPage(page) => LeBytes(page, 4)
    case Clr(page, offset, after, undoNext) => LeBytes(page, 4) + LeBytes(offset, 2) + Prefixed(after) + LeBytes(undoNext, 8)
    case CheckpointEnd(att, dpt) => LeBytes(|att|, 4) + EncodePairs(att, 8) + (LeBytes(|dpt|, 4) + EncodePairs(dpt, 4))
    case _ => []
  }

  function Body(r: Record): (b: seq<byte>)
    ensures |b| >= 25
  {
    LeBytes(r.lsn, 8) + LeBytes(r.prev, 8) + LeBytes(r.txn, 8) + [Tag(r.kind)] + EncodePayload(r.kind)
  }

  function Size(r: Record): (n: nat)
    ensures MIN_RECORD_LEN <= n
  {
    |Body(r)| + 12
  }

  /** `encode_record`. */
  function Encode(crc: Checksum, r: Record): (b: seq<byte>)
    ensures |b| == Size(r)
  {
    var front := LeBytes(Size(r), 4) + Body(r);
    front + LeBytes(crc(front), 4) + LeBytes(Size(r), 4)
  }

  /** Every field fits the width it is stored in. */
  predicate Encodable(r: Record)
  {
    && r.lsn < 0x1_0000_0000_0000_0000 && r.prev < 0x1_0000_0000_0000_0000 && Size(r) < 0x1_0000_0000
    && match r.kind
       case Update(page, offset, _, _) => page < 0x1_0000_0000 && offset < 0x1_0000
       case AllocPage(page) => page < 0x1_0000_0000
       case Clr(page, offset, _, undoNext) => page < 0x1_0000_0000 && offset < 0x1_0000 && undoNext < 0x1_0000_0000_0000_0000
       case CheckpointEnd(att, dpt) => PairsFit(att, 8) && PairsFit(dpt, 4)
       case _ => true
  }

  predicate PairsFit(pairs: seq<(int, int)>, width: nat)
  {
    forall i :: 0 <= i < |pairs| ==> 0 <= pairs[i].0 < Pow256(width) && 0 <= pairs[i].1 < Pow256(8)
  }

  // ---- Decoding: each step takes its bytes from the front and leaves the rest ----

  function Take(b: seq<byte>, n: nat): Option<(seq<byte>, seq<byte>)>
  {
    if n <= |b| then Some((b[..n], b[n..])) else None
  }

  function TakeLe(b: seq<byte>, width: nat): Option<(nat, seq<byte>)>
  {
    if width <= |b| then Some((FromLe(b[..width]), b[width..])) else None
  }

  function TakePrefixed(b: seq<byte>): Option<(seq<byte>, seq<byte>)>
  {
    match TakeLe(b, 4)
    case None => None
    case Some((n, rest)) => Take(rest, n)
  }

  function TakePairs(b: seq<byte>, n: nat, width: nat): (r: Option<(seq<(int, int)>, seq<byte>)>)
    ensures r.Some? ==> |r.value.0| == n && PairsFit(r.value.0, width)
    decreases n
  {
    if n == 0 then Some(([], b)) else
      match TakeLe(b, width)
      case None => None
      case Some((x, rest)) =>
        match TakeLe(rest, 8)
        case None => None
        case Some((y, rest2)) =>
          match TakePairs(rest2, n - 1, width)
          case None => None
          case Some((more, end)) => Some(([(x, y)] + more, end))
  }

  function CountedPairs(b: seq<byte>, width: nat): Option<(seq<(int, int)>, seq<byte>)>
  {
    match TakeLe(b, 4)
    case None => None
    case Some((n, rest)) => TakePairs(rest, n, width)
  }

  function Exhausted(k: Kind, rest: seq<byte>): Option<Kind>
  {
    if rest == [] then Some(k) else None
  }

  function DecodeUpdate(b: seq<byte>): Option<Kind>
  {
    match TakeLe(b, 4)
    case None => None
    case Some((page, b1)) =>
      match TakeLe(b1, 2)
      case None => None
      case Some((offset, b2)) =>
        match TakePrefixed(b2)
        case None => None
        case Some((before, b3)) =>
          match TakePrefixed(b3)
          case None => None
          case Some((after, b4)) => Exhausted(Update(page, offset, before, after), b4)
  }

  function DecodeClr(b: seq<byte>): Option<Kind>
  {
    match TakeLe(b, 4)
    case None => None
    case Some((page, b1)) =>
      match TakeLe(b1, 2)
      case None => None
      case Some((offset, b2)) =>
        match TakePrefixed(b2)
        case None => None
        case Some((after, b3)) =>
          match TakeLe(b3, 8)
          case None => None
          case Some((next, b4)) => Exhausted(Clr(page, offset, after, next), b4)
  }

  /** Eight decoded bytes are always a transaction id and an LSN, four always a page id. */
  function Txns(att: seq<(int, int)>): seq<(TxnId, Lsn)>
    requires PairsFit(att, 8)
  {
    Widths();
    seq(|att|, i requires 0 <= i < |att| && PairsFit(att, 8) => (att[i].0, att[i].1))
  }

  function Pages(dpt: seq<(int, int)>): seq<(PageId, Lsn)>
    requires PairsFit(dpt, 4)
  {
    seq(|dpt|, i requires 0 <= i < |dpt| && PairsFit(dpt, 4) => (dpt[i].0, dpt[i].1))
  }

  function DecodeSnapshot(b: seq<byte>): Option<Kind>
  {
    match CountedPairs(b, 8)
    case None => None
    case Some((att, rest)) =>
      match CountedPairs(rest, 4)
      case None => None
      case Some((dpt, end)) =>
        Exhausted(CheckpointEnd(Txns(att), Pages(dpt)), end)
  }

  /** `decode_payload`. */
  function DecodePayload(tag: byte, b: seq<byte>): Option<Kind>
  {
    match tag
    case 0 => Exhausted(Begin, b)
    case 1 => Exhausted(Commit, b)
    case 2 => Exhausted(Abort, b)
    case 3 => Exhausted(End, b)
    case 4 => DecodeUpdate(b)
    case 5 => (match TakeLe(b, 4) case None => None case Some((page, rest)) => Exhausted(AllocPage(page), rest))
    case 6 => DecodeClr(b)
    case 7 => Exhausted(CheckpointBegin, b)
    case 8 => DecodeSnapshot(b)
    case _ => None
  }

  /** `decode_record` at `pos`: the record and its length, or nothing if no whole valid record starts there. */
  function Decode(crc: Checksum, b: seq<byte>, pos: nat): (r: Option<(Record, nat)>)
    ensures r.Some? ==> MIN_RECORD_LEN <= r.value.1 && pos + r.value.1 <= |b|
  {
    if pos + 4 > |b| then None else
      var total := FromLe(b[pos..pos + 4]);
      if total < MIN_RECORD_LEN || pos + total > |b| then None else
        var rec := b[pos..pos + total];
        if rec[total - 4..] != rec[..4] || crc(rec[..total - 8]) != FromLe(rec[total - 8..total - 4]) then None else
          match DecodeBody(rec[4..total - 8])
          case None => None
          case Some(r) => Some((r, total))
  }

  function DecodeBody(b: seq<byte>): Option<Record>
    requires |b| >= 25
  {
    Widths();
    match DecodePayload(b[24], b[25..])
    case None => None
    case Some(kind) => Some(Record(FromLe(b[..8]), FromLe(b[8..16]), FromLe(b[16..24]), kind))
  }

  // ---- Round trips ----

  lemma {:induction false} TakesLe(n: nat, width: nat, rest: seq<byte>)
    requires n < Pow256(width)
    ensures TakeLe(LeBytes(n, width) + rest, width) == Some((n, rest))
  {
    var b := LeBytes(n, width) + rest;
    LeRoundTrip(n, width);
    assert b[..width] == LeBytes(n, width) && b[width..] == rest;
  }

  lemma {:induction false} TakesPrefixed(x: seq<byte>, rest: seq<byte>)
    requires |x| < Pow256(4)
    ensures TakePrefixed(Prefixed(x) + rest) == Some((x, rest))
  {
    assert Prefixed(x) + rest == LeBytes(|x|, 4) + (x + rest);
    TakesLe(|x|, 4, x + rest);
    assert (x + rest)[..|x|] == x && (x + rest)[|x|..] == rest;
  }

  lemma {:induction false} Regrouped(a: seq<byte>, b: seq<byte>, c: seq<byte>, d: seq<byte>)
    ensures a + b + c + d == a + (b + (c + d))
  {
  }

  lemma {:induction false} TakesOnePair(x: int, y: int, width: nat, more: seq<byte>, n: nat, ps: seq<(int, int)>, rest: seq<byte>)
    requires 0 <= x < Pow256(width) && 0 <= y < Pow256(8) && TakePairs(more, n, width) == Some((ps, rest))
    ensures TakePairs(LeBytes(x, width) + (LeBytes(y, 8) + more), n + 1, width) == Some(([(x, y)] + ps, rest))
  {
    TakesLe(x, width, LeBytes(y, 8) + more);
    TakesLe(y, 8, more);
  }

  lemma {:induction false} TakesPairs(pairs: seq<(int, int)>, width: nat, rest: seq<byte>)
    requires PairsFit(pairs, width)
    ensures TakePairs(EncodePairs(pairs, width) + rest, |pairs|, width) == Some((pairs, rest))
    decreases |pairs|
  {
    if pairs == [] {
      assert EncodePairs(pairs, width) + rest == rest;
    } else {
      var x, y, others := pairs[0].0, pairs[0].1, pairs[1..];
      var more := EncodePairs(others, width);
      TakesPairs(others, width, rest);
      TakesOnePair(x, y, width, more + rest, |others|, others, rest);
      Regrouped(LeBytes(x, width), LeBytes(y, 8), more, rest);
      assert [(x, y)] + others == pairs;
    }
  }

  lemma {:induction false} TakesCounted(pairs: seq<(int, int)>, width: nat, rest: seq<byte>)
    requires PairsFit(pairs, width) && |pairs| < Pow256(4)
    ensures CountedPairs(LeBytes(|pairs|, 4) + EncodePairs(pairs, width) + rest, width) == Some((pairs, rest))
  {
    var b := EncodePairs(pairs, width) + rest;
    assert LeBytes(|pairs|, 4) + EncodePairs(pairs, width) + rest == LeBytes(|pairs|, 4) + b;
    TakesLe(|pairs|, 4, b);
    TakesPairs(pairs, width, rest);
  }

  lemma {:induction false} UpdateRoundTrip(page: nat, offset: nat, before: seq<byte>, after: seq<byte>)
    requires page < Pow256(4) && offset < Pow256(2) && |before| < Pow256(4) && |after| < Pow256(4)
    ensures DecodeUpdate(EncodePayload(Update(page, offset, before, after))) == Some(Update(page, offset, before, after))
  {
    var b3 := Prefixed(after) + [];
    var b2 := Prefixed(before) + b3;
    var b1 := LeBytes(offset, 2) + b2;
    assert EncodePayload(Update(page, offset, before, after)) == LeBytes(page, 4) + b1;
    TakesLe(page, 4, b1);
    TakesLe(offset, 2, b2);
    TakesPrefixed(before, b3);
    TakesPrefixed(after, []);
  }

  lemma {:induction false} ClrRoundTrip(page: nat, offset: nat, after: seq<byte>, next: nat)
    requires page < Pow256(4) && offset < Pow256(2) && |after| < Pow256(4) && next < Pow256(8)
    ensures DecodeClr(EncodePayload(Clr(page, offset, after, next))) == Some(Clr(page, offset, after, next))
  {
    var b3 := LeBytes(next, 8) + [];
    var b2 := Prefixed(after) + b3;
    var b1 := LeBytes(offset, 2) + b2;
    assert EncodePayload(Clr(page, offset, after, next)) == LeBytes(page, 4) + b1;
    TakesLe(page, 4, b1);
    TakesLe(offset, 2, b2);
    TakesPrefixed(after, b3);
    TakesLe(next, 8, []);
  }

  lemma {:induction false} SnapshotRoundTrip(att: seq<(TxnId, Lsn)>, dpt: seq<(PageId, Lsn)>)
    requires PairsFit(att, 8) && PairsFit(dpt, 4) && |att| < Pow256(4) && |dpt| < Pow256(4)
    ensures DecodeSnapshot(EncodePayload(CheckpointEnd(att, dpt))) == Some(CheckpointEnd(att, dpt))
  {
    var tail := LeBytes(|dpt|, 4) + EncodePairs(dpt, 4);
    TakesCounted(att, 8, tail);
    TakesCounted(dpt, 4, []);
    assert tail + [] == tail;
    assert Txns(att) == att && Pages(dpt) == dpt;
  }

  lemma {:induction false} PairsLen(pairs: seq<(int, int)>, width: nat)
    requires NonNegative(pairs)
    ensures |EncodePairs(pairs, width)| == |pairs| * (width + 8)
    decreases |pairs|
  {
    if pairs != [] { PairsLen(pairs[1..], width); }
  }

  lemma {:induction false} PayloadRoundTrip(r: Record)
    requires Encodable(r)
    ensures DecodePayload(Tag(r.kind), EncodePayload(r.kind)) == Some(r.kind)
  {
    Widths();
    match r.kind {
      case Update(page, offset, before, after) => UpdateRoundTrip(page, offset, before, after);
      case Clr(page, offset, after, next) => ClrRoundTrip(page, offset, after, next);
      case AllocPage(page) =>
        TakesLe(page, 4, []);
        assert LeBytes(page, 4) + [] == LeBytes(page, 4);
      case CheckpointEnd(att, dpt) =>
        PairsLen(att, 8);
        PairsLen(dpt, 4);
        SnapshotRoundTrip(att, dpt);
      case _ =>
    }
  }

  lemma {:induction false} BodyRoundTrip(r: Record)
    requires Encodable(r)
    ensures DecodeBody(Body(r)) == Some(r)
  {
    Widths();
    var b := Body(r);
    LeRoundTrip(r.lsn, 8);
    LeRoundTrip(r.prev, 8);
    LeRoundTrip(r.txn, 8);
    assert b[..8] == LeBytes(r.lsn, 8) && b[8..16] == LeBytes(r.prev, 8) && b[16..24] == LeBytes(r.txn, 8);
    assert b[24] == Tag(r.kind) && b[25..] == EncodePayload(r.kind);
    PayloadRoundTrip(r);
  }

  /** A record decodes to itself wherever its bytes stand, whatever comes before and after. */
  lemma {:induction false} RecordRoundTrip(crc: Checksum, r: Record, before: seq<byte>, rest: seq<byte>)
    requires Encodable(r)
    ensures Decode(crc, before + Encode(crc, r) + rest, |before|) == Some((r, Size(r)))
  {
    var b, pos, n := before + Encode(crc, r) + rest, |before|, Size(r);
    var rec := b[pos..pos + n];
    assert rec == Encode(crc, r);
    EncodedParts(crc, r);
    assert b[pos..pos + 4] == rec[..4];
    Widths();
    LeRoundTrip(n, 4);
    BodyRoundTrip(r);
  }

  lemma {:induction false} EncodedParts(crc: Checksum, r: Record)
    requires Encodable(r)
    ensures var e, n := Encode(crc, r), Size(r);
            && e[..4] == LeBytes(n, 4) == e[n - 4..] && e[4..n - 8] == Body(r)
            && crc(e[..n - 8]) == FromLe(e[n - 8..n - 4])
  {
    var e, n := Encode(crc, r), Size(r);
    var front := LeBytes(n, 4) + Body(r);
    assert e[..n - 8] == front && e[n - 8..n - 4] == LeBytes(crc(front), 4);
    Widths();
    LeRoundTrip(crc(front), 4);
  }

  /** A record cut short decodes to nothing: no torn tail is ever read as a record. */
  lemma {:induction false} TornRecord(crc: Checksum, r: Record, before: seq<byte>, k: nat)
    requires Encodable(r) && k < Size(r)
    ensures Decode(crc, before + Encode(crc, r)[..k], |before|) == None
  {
    var b, pos := before + Encode(crc, r)[..k], |before|;
    if 4 <= k {
      EncodedParts(crc, r);
      assert b[pos..pos + 4] == Encode(crc, r)[..4];
      Widths();
      LeRoundTrip(Size(r), 4);
    }
  }
}
