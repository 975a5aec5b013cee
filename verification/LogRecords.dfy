/** Log records as the write-ahead log hands them to recovery, and page images.
    An LSN is the 1-based position of a record; 0 stands for "no record", as it does on disk. */
module LogRecords {
  import opened Bytes

  /** An unsigned 64-bit number, its maximum reserved for the checkpointer. */
  type TxnId = t: int | 0 <= t <= 0xFFFF_FFFF_FFFF_FFFF
  type PageId = nat
  type Lsn = nat

  const CHECKPOINT_TXN: TxnId := 0xFFFF_FFFF_FFFF_FFFF
  const PAGE_SIZE := 4096
  /** First byte a logged write may touch: the checksum and the page LSN come before it. */
  const BODY_START := 12

  datatype Kind =
    | Begin
    | Commit
    | Abort
    | End
    | Update(page: PageId, offset: nat, before: seq<byte>, after: seq<byte>)
    | AllocPage(page: PageId)
    | Clr(page: PageId, offset: nat, after: seq<byte>, undoNext: Lsn)
    | CheckpointBegin
    | CheckpointEnd(att: seq<(TxnId, Lsn)>, dpt: seq<(PageId, Lsn)>)
  {
    /** Update and Clr are the two kinds that change a page's bytes. */
    predicate Writes() { Update? || Clr? }
  }

  /** `prev` is the transaction's previous record, 0 when there is none. */
  datatype Record = Record(lsn: Lsn, prev: Lsn, txn: TxnId, kind: Kind)

  type PageData = d: seq<byte> | |d| == PAGE_SIZE witness seq(PAGE_SIZE, _ => 0)

  datatype Page = Page(lsn: Lsn, data: PageData)

  /** `copy_from_slice` into a page; a write that would run past the page changes nothing here. */
  function Overwrite(d: PageData, offset: nat, bytes: seq<byte>): (r: PageData)
    ensures forall i :: 0 <= i < PAGE_SIZE ==>
              r[i] == if offset + |bytes| <= PAGE_SIZE && offset <= i < offset + |bytes| then bytes[i - offset] else d[i]
  {
    if offset + |bytes| <= PAGE_SIZE then d[..offset] + bytes + d[offset + |bytes|..] else d
  }

  /** Does this record write byte `i` of page `p`? */
  predicate Touches(r: Record, p: PageId, i: nat)
  {
    r.kind.Writes() && r.kind.page == p && r.kind.offset <= i < r.kind.offset + |r.kind.after|
  }
}
