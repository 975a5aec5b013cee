/** The meaning of a log: what repeating history produces, what replaying only committed updates
    produces, and why undoing the unfinished transactions of a strict log turns one into the other. */
module History {
  import opened Bytes
  import opened LogRecords

  function Last<T>(s: seq<T>): (x: T)
    requires s != []
    ensures x in s
  {
    s[|s| - 1]
  }

  function Front<T>(s: seq<T>): (f: seq<T>)
    requires s != []
    ensures forall x :: x in f ==> x in s
  {
    s[..|s| - 1]
  }

  // ---- Per-transaction views of a log ----

  /** `last_lsn_by_txn`: the transaction's newest record, 0 if it has none. */
  function LastLsn(log: seq<Record>, t: TxnId): (r: Lsn)
    ensures r <= |log|
    ensures r > 0 ==> log[r - 1].txn == t
    ensures forall i :: r <= i < |log| ==> log[i].txn != t
  {
    if log == [] then 0
    else if Last(log).txn == t then |log|
    else LastLsn(Front(log), t)
  }

  predicate Committed(log: seq<Record>, t: TxnId)
  {
    exists i :: 0 <= i < |log| && log[i].txn == t && log[i].kind.Commit?
  }

  function CommittedSet(log: seq<Record>): (c: set<TxnId>)
    ensures forall t :: t in c <==> Committed(log, t)
  {
    set i | 0 <= i < |log| && log[i].kind.Commit? :: log[i].txn
  }

  /** The transaction may still write: it has begun and has not started to finish. */
  predicate Open(log: seq<Record>, t: TxnId)
  {
    && t != CHECKPOINT_TXN
    && LastLsn(log, t) > 0
    && forall i :: 0 <= i < |log| && log[i].txn == t ==>
         log[i].kind.Begin? || log[i].kind.Update? || log[i].kind.AllocPage?
  }

  /** Back pointers point back. */
  predicate Chained(log: seq<Record>)
  {
    forall i :: 0 <= i < |log| ==> log[i].prev <= i && (log[i].kind.Clr? ==> log[i].kind.undoNext <= i)
  }

  function Earlier(lsn: Lsn, cursor: Lsn): Lsn
  {
    if lsn < cursor then lsn else 0
  }

  /** The LSNs of the updates `undo_transaction` compensates from `cursor`, oldest first. */
  function Walk(log: seq<Record>, cursor: Lsn): (w: seq<Lsn>)
    ensures forall u :: u in w ==> 0 < u <= cursor && u <= |log| && log[u - 1].kind.Update?
    decreases cursor
  {
    if cursor == 0 || cursor > |log| then [] else
      var r := log[cursor - 1];
      match r.kind
      case Update(_, _, _, _) => Walk(log, Earlier(r.prev, cursor)) + [cursor]
      case Clr(_, _, _, undoNext) => Walk(log, Earlier(undoNext, cursor))
      case Begin => []
      case _ => Walk(log, Earlier(r.prev, cursor))
  }

  /** Updates of an unfinished transaction that no compensation record has undone yet, oldest first. */
  function Pending(log: seq<Record>, t: TxnId): (w: seq<Lsn>)
    ensures forall u :: u in w ==> 0 < u <= |log| && log[u - 1].kind.Update?
  {
    if Committed(log, t) then [] else Walk(log, LastLsn(log, t))
  }

  // ---- Page contents ----

  /** Page `p` after repeating the whole history: every update and every compensation, in order. */
  function PageAfter(base: seq<PageData>, log: seq<Record>, p: PageId): (r: Page)
    requires p < |base|
  {
    if log == [] then Page(0, base[p])
    else
      var q := PageAfter(base, Front(log), p);
      var k := Last(log).kind;
      if k.Writes() && k.page == p then Page(|log|, Overwrite(q.data, k.offset, k.after)) else q
  }

  /** The specification of recovery: replay, in order, only the updates of the transactions in `c`. */
  function CommittedData(base: seq<PageData>, log: seq<Record>, c: set<TxnId>, p: PageId): (r: PageData)
    requires p < |base|
  {
    if log == [] then base[p]
    else
      var d := CommittedData(base, Front(log), c, p);
      var r := Last(log);
      if r.kind.Update? && r.kind.page == p && r.txn in c then Overwrite(d, r.kind.offset, r.kind.after) else d
  }

  predicate WritesFit(log: seq<Record>)
  {
    && (forall i :: 0 <= i < |log| && log[i].kind.Writes() ==> log[i].kind.offset + |log[i].kind.after| <= PAGE_SIZE)
    && (forall i :: 0 <= i < |log| && log[i].kind.Update? ==> |log[i].kind.before| == |log[i].kind.after|)
  }

  // ---- Which logs the running system can produce ----

  /** No other unfinished transaction has an uncompensated write on the bytes of `r`. */
  ghost predicate Strict(log: seq<Record>, r: Record)
    requires r.kind.Writes()
  {
    forall t, u, i: nat :: t != r.txn && u in Pending(log, t) && Touches(r, r.kind.page, i) ==>
      !Touches(log[u - 1], r.kind.page, i)
  }

  ghost predicate UpdateOk(base: seq<PageData>, log: seq<Record>, r: Record)
    requires r.kind.Update?
  {
    var k := r.kind;
    && Open(log, r.txn)
    && k.page < |base| && BODY_START <= k.offset && k.offset + |k.after| <= PAGE_SIZE
    && k.before == PageAfter(base, log, k.page).data[k.offset..k.offset + |k.after|]
    && Strict(log, r)
  }

  /** `r` compensates exactly the newest pending update of its transaction. */
  ghost predicate ClrOk(log: seq<Record>, r: Record)
    requires r.kind.Clr?
  {
    && Pending(log, r.txn) != []
    && var u := log[Last(Pending(log, r.txn)) - 1];
       r.kind == Clr(u.kind.page, u.kind.offset, u.kind.before, u.prev)
  }

  ghost predicate Admissible(base: seq<PageData>, log: seq<Record>, r: Record)
  {
    && r.lsn == |log| + 1
    && r.prev == LastLsn(log, r.txn)
    && (r.txn == CHECKPOINT_TXN <==> r.kind.CheckpointBegin? || r.kind.CheckpointEnd?)
    && match r.kind
       case Begin => r.prev == 0
       case Update(_, _, _, _) => UpdateOk(base, log, r)
       case AllocPage(page) => Open(log, r.txn) && page < |base|
       case Commit => Open(log, r.txn)
       case Clr(_, _, _, _) => ClrOk(log, r)
       case Abort => r.prev > 0 && !Committed(log, r.txn) && Pending(log, r.txn) == []
       case End => r.prev > 0 && !Open(log, r.txn) && Pending(log, r.txn) == []
       case _ => true
  }

  /** Every record was admissible when it was appended. */
  ghost predicate WellFormed(base: seq<PageData>, log: seq<Record>)
  {
    && Chained(log)
    && WritesFit(log)
    && (log == [] || (WellFormed(base, Front(log)) && Admissible(base, Front(log), Last(log))))
  }

  // ---- How one record changes the pending updates ----

  lemma {:induction false} WalkPrefix(log: seq<Record>, longer: seq<Record>, cursor: Lsn)
    requires Chained(longer) && log <= longer && cursor <= |log|
    ensures Chained(log) && Walk(log, cursor) == Walk(longer, cursor)
    decreases cursor
  {
    assert Chained(log) by {
      forall i | 0 <= i < |log| ensures log[i].prev <= i && (log[i].kind.Clr? ==> log[i].kind.undoNext <= i) {
        assert log[i] == longer[i];
      }
    }
    if cursor > 0 {
      var r := log[cursor - 1];
      assert r == longer[cursor - 1];
      if r.kind.Clr? { WalkPrefix(log, longer, r.kind.undoNext); } else { WalkPrefix(log, longer, r.prev); }
    }
  }

  /** Below the newest pending update the walk continues at that update's own back pointer. */
  lemma {:induction false} WalkBelowTop(log: seq<Record>, cursor: Lsn)
    requires Chained(log) && cursor <= |log| && Walk(log, cursor) != []
    ensures Front(Walk(log, cursor)) == Walk(log, log[Last(Walk(log, cursor)) - 1].prev)
    decreases cursor
  {
    var r := log[cursor - 1];
    if r.kind.Clr? {
      WalkBelowTop(log, r.kind.undoNext);
    } else if !r.kind.Update? {
      WalkBelowTop(log, r.prev);
    }
  }

  lemma CommittedStep(log: seq<Record>, t: TxnId)
    requires log != []
    ensures Committed(log, t) <==> Committed(Front(log), t) || (Last(log).txn == t && Last(log).kind.Commit?)
  {
    if Committed(log, t) {
      var i :| 0 <= i < |log| && log[i].txn == t && log[i].kind.Commit?;
      if i < |log| - 1 { assert Front(log)[i] == log[i]; }
    }
    if Committed(Front(log), t) {
      var i :| 0 <= i < |Front(log)| && Front(log)[i].txn == t && Front(log)[i].kind.Commit?;
      assert log[i] == Front(log)[i];
    }
  }

  lemma {:induction false} PendingOfOthers(log: seq<Record>, t: TxnId)
    requires Chained(log) && log != [] && t != Last(log).txn
    ensures Pending(log, t) == Pending(Front(log), t)
  {
    CommittedStep(log, t);
    WalkPrefix(Front(log), log, LastLsn(Front(log), t));
  }

  lemma {:induction false} PendingPopped(log: seq<Record>)
    requires Chained(log) && log != [] && Last(log).kind.Clr? && ClrOk(Front(log), Last(log))
    ensures Pending(log, Last(log).txn) == Front(Pending(Front(log), Last(log).txn))
  {
    var pre, t := Front(log), Last(log).txn;
    CommittedStep(log, t);
    WalkPrefix(pre, log, Last(log).kind.undoNext);
    WalkBelowTop(pre, LastLsn(pre, t));
  }

  lemma {:induction false} PendingOfOwn(log: seq<Record>)
    requires Chained(log) && log != [] && !Last(log).kind.Clr? && Last(log).prev == LastLsn(Front(log), Last(log).txn)
    requires Last(log).kind.Begin? ==> Last(log).prev == 0
    requires Last(log).kind.Update? ==> !Committed(Front(log), Last(log).txn)
    ensures var pre, r := Pending(Front(log), Last(log).txn), Last(log);
            Pending(log, r.txn) == if r.kind.Update? then pre + [|log|] else if r.kind.Commit? then [] else pre
  {
    CommittedStep(log, Last(log).txn);
    WalkPrefix(Front(log), log, Last(log).prev);
  }

  /** The five ways a record can change what is pending. */
  lemma {:induction false} PendingStep(base: seq<PageData>, log: seq<Record>, t: TxnId)
    requires WellFormed(base, log) && log != []
    ensures var pre := Pending(Front(log), t);
            var r := Last(log);
            Pending(log, t) ==
              if t != r.txn then pre
              else if r.kind.Update? then pre + [|log|]
              else if r.kind.Clr? then Front(pre)
              else if r.kind.Commit? then []
              else pre
  {
    if t != Last(log).txn {
      PendingOfOthers(log, t);
    } else if Last(log).kind.Clr? {
      PendingPopped(log);
    } else {
      PendingOfOwn(log);
    }
  }

  // ---- Strictness: one owner per byte ----

  ghost predicate PendingTouches(log: seq<Record>, t: TxnId, p: PageId, i: nat)
  {
    exists u :: u in Pending(log, t) && Touches(log[u - 1], p, i)
  }

  lemma {:induction false} PendingTouchesBefore(base: seq<PageData>, log: seq<Record>, t: TxnId, p: PageId, i: nat)
    requires WellFormed(base, log) && log != [] && PendingTouches(log, t, p, i)
    ensures || PendingTouches(Front(log), t, p, i)
            || (t == Last(log).txn && Last(log).kind.Update? && Touches(Last(log), p, i))
  {
    var u :| u in Pending(log, t) && Touches(log[u - 1], p, i);
    StillPending(base, log, t, u);
    if u == |log| { assert log[u - 1] == Last(log); }
  }

  lemma {:induction false} PendingTouchesAfter(base: seq<PageData>, log: seq<Record>, t: TxnId, p: PageId, i: nat)
    requires WellFormed(base, log) && log != [] && PendingTouches(Front(log), t, p, i)
    requires t != Last(log).txn || !(Last(log).kind.Clr? || Last(log).kind.Commit?)
    ensures PendingTouches(log, t, p, i)
  {
    PendingStep(base, log, t);
    var pre := Front(log);
    var u :| u in Pending(pre, t) && Touches(pre[u - 1], p, i);
    assert u in Pending(log, t) && pre[u - 1] == log[u - 1];
  }

  lemma InFront<T>(s: seq<T>, x: T)
    requires x in s && x != Last(s)
    ensures x in Front(s)
  {
    var j :| 0 <= j < |s| && s[j] == x;
    assert Front(s)[j] == x;
  }

  /** A compensation writes the bytes of the update it compensates. */
  lemma {:induction false} ClrTouches(base: seq<PageData>, log: seq<Record>, p: PageId, i: nat)
    requires WellFormed(base, log) && log != [] && Last(log).kind.Clr?
    ensures var w := Pending(Front(log), Last(log).txn);
            w != [] && (Touches(Last(log), p, i) <==> Touches(log[Last(w) - 1], p, i))
  {
    var pre := Front(log);
    assert ClrOk(pre, Last(log));
    var v := Last(Pending(pre, Last(log).txn));
    assert pre[v - 1] == log[v - 1];
  }

  lemma {:induction false} PendingTouchesAfterClr(base: seq<PageData>, log: seq<Record>, p: PageId, i: nat)
    requires WellFormed(base, log) && log != [] && PendingTouches(Front(log), Last(log).txn, p, i)
    requires Last(log).kind.Clr? && !Touches(Last(log), p, i)
    ensures PendingTouches(log, Last(log).txn, p, i)
  {
    var pre, s := Front(log), Last(log).txn;
    ClrTouches(base, log, p, i);
    PendingStep(base, log, s);
    var u :| u in Pending(pre, s) && Touches(pre[u - 1], p, i);
    assert log[u - 1] == pre[u - 1];
    InFront(Pending(pre, s), u);
  }

  /** At any moment at most one unfinished transaction has an uncompensated write on a byte. */
  lemma {:induction false} OneOwner(base: seq<PageData>, log: seq<Record>, s: TxnId, t: TxnId, p: PageId, i: nat)
    requires WellFormed(base, log) && s != t
    ensures !(PendingTouches(log, s, p, i) && PendingTouches(log, t, p, i))
    decreases |log|
  {
    if log == [] {
      assert Pending(log, s) == [];
    } else {
      var pre, r := Front(log), Last(log);
      OneOwner(base, pre, s, t, p, i);
      if PendingTouches(log, s, p, i) && PendingTouches(log, t, p, i) {
        PendingTouchesBefore(base, log, s, p, i);
        PendingTouchesBefore(base, log, t, p, i);
      }
    }
  }

  /** Only the owner of a byte writes it: by strictness for an update, by `OneOwner` for a compensation. */
  lemma {:induction false} WriterIsOwner(base: seq<PageData>, log: seq<Record>, t: TxnId, p: PageId, i: nat)
    requires WellFormed(base, log) && log != []
    requires Touches(Last(log), p, i) && PendingTouches(Front(log), t, p, i)
    ensures Last(log).txn == t
  {
    var pre, r := Front(log), Last(log);
    var u :| u in Pending(pre, t) && Touches(pre[u - 1], p, i);
    if r.txn != t {
      if r.kind.Clr? {
        var v := Last(Pending(pre, r.txn));
        assert v in Pending(pre, r.txn) && Touches(pre[v - 1], p, i);
        OneOwner(base, pre, t, r.txn, p, i);
      }
    }
  }

  /** An older update that is still pending was pending before the last record too. */
  lemma {:induction false} StillPending(base: seq<PageData>, log: seq<Record>, t: TxnId, u: Lsn)
    requires WellFormed(base, log) && u in Pending(log, t)
    ensures u < |log| ==> u in Pending(Front(log), t) && Front(log)[u - 1] == log[u - 1]
    ensures u == |log| ==> Last(log).txn == t
  {
    PendingStep(base, log, t);
  }

  /** While an update is pending, every later write to its bytes is by the same transaction. */
  lemma {:induction false} OwnerWritesLast(base: seq<PageData>, log: seq<Record>, t: TxnId, u: Lsn, k: Lsn, p: PageId, i: nat)
    requires WellFormed(base, log) && u in Pending(log, t) && u <= k <= |log|
    requires Touches(log[u - 1], p, i) && Touches(log[k - 1], p, i)
    ensures log[k - 1].txn == t
    decreases |log|
  {
    StillPending(base, log, t, u);
    if u < |log| {
      var pre := Front(log);
      if k < |log| {
        assert pre[k - 1] == log[k - 1];
        OwnerWritesLast(base, pre, t, u, k, p, i);
      } else {
        WriterIsOwner(base, log, t, p, i);
      }
    }
  }

  /** An open transaction has every one of its updates pending. */
  lemma {:induction false} OpenMeansAllPending(base: seq<PageData>, log: seq<Record>, t: TxnId, k: Lsn)
    requires WellFormed(base, log) && Open(log, t)
    requires 0 < k <= |log| && log[k - 1].txn == t && log[k - 1].kind.Update?
    ensures k in Pending(log, t)
    decreases |log|
  {
    var pre, r := Front(log), Last(log);
    PendingStep(base, log, t);
    if k < |log| {
      assert pre[k - 1] == log[k - 1];
      assert LastLsn(pre, t) > 0;
      assert Open(pre, t) by {
        forall j | 0 <= j < |pre| && pre[j].txn == t
          ensures pre[j].kind.Begin? || pre[j].kind.Update? || pre[j].kind.AllocPage?
        { assert log[j] == pre[j]; }
      }
      OpenMeansAllPending(base, pre, t, k);
      assert r.txn == t ==> log[|log| - 1].kind == r.kind;
    }
  }

  // ---- Committed-only replay ----

  /** Adding a transaction that never wrote the byte does not change the replayed byte. */
  lemma {:induction false} ReplayIgnores(base: seq<PageData>, log: seq<Record>, c: set<TxnId>, t: TxnId, p: PageId, i: nat)
    requires p < |base| && WritesFit(log) && i < PAGE_SIZE
    requires forall k :: 0 <= k < |log| && log[k].txn == t && log[k].kind.Update? ==> !Touches(log[k], p, i)
    ensures CommittedData(base, log, c + {t}, p)[i] == CommittedData(base, log, c, p)[i]
    decreases |log|
  {
    if log != [] {
      var pre := Front(log);
      assert forall k :: 0 <= k < |pre| ==> pre[k] == log[k];
      ReplayIgnores(base, pre, c, t, p, i);
      assert log[|log| - 1] == Last(log);
    }
  }

  /** If from some write on only updates of `c` wrote the byte, replaying `c` and repeating history agree on it. */
  lemma {:induction false} ReplayAgrees(base: seq<PageData>, log: seq<Record>, c: set<TxnId>, u: Lsn, p: PageId, i: nat)
    requires p < |base| && WritesFit(log) && i < PAGE_SIZE
    requires 0 < u <= |log| && Touches(log[u - 1], p, i)
    requires forall k :: u <= k < |log| && Touches(log[k], p, i) ==> log[k].kind.Update? && log[k].txn in c
    requires log[u - 1].kind.Update? && log[u - 1].txn in c
    ensures CommittedData(base, log, c, p)[i] == PageAfter(base, log, p).data[i]
    decreases |log|
  {
    var pre := Front(log);
    assert log[|log| - 1] == Last(log);
    if Touches(Last(log), p, i) {
    } else {
      assert u < |log|;
      assert forall k :: 0 <= k < |pre| ==> pre[k] == log[k];
      ReplayAgrees(base, pre, c, u, p, i);
    }
  }

  /** A byte's value after undoing a transaction's pending updates, newest first. */
  function UndoByte(log: seq<Record>, pending: seq<Lsn>, v: byte, p: PageId, i: nat): byte
    requires WritesFit(log)
    requires forall u :: u in pending ==> 0 < u <= |log| && log[u - 1].kind.Update?
    decreases |pending|
  {
    if pending == [] then v
    else
      var r := log[Last(pending) - 1];
      UndoByte(log, Front(pending), if Touches(r, p, i) then r.kind.before[i - r.kind.offset] else v, p, i)
  }

  lemma {:induction false} UndoByteFrame(log: seq<Record>, longer: seq<Record>, pending: seq<Lsn>, v: byte, p: PageId, i: nat)
    requires WritesFit(longer) && log <= longer && WritesFit(log)
    requires forall u :: u in pending ==> 0 < u <= |log| && log[u - 1].kind.Update?
    ensures UndoByte(log, pending, v, p, i) == UndoByte(longer, pending, v, p, i)
    decreases |pending|
  {
    if pending != [] {
      var r := log[Last(pending) - 1];
      assert r == longer[Last(pending) - 1];
      UndoByteFrame(log, longer, Front(pending), if Touches(r, p, i) then r.kind.before[i - r.kind.offset] else v, p, i);
    }
  }

  lemma {:induction false} UndoByteUntouched(log: seq<Record>, pending: seq<Lsn>, v: byte, p: PageId, i: nat)
    requires WritesFit(log)
    requires forall u :: u in pending ==> 0 < u <= |log| && log[u - 1].kind.Update? && !Touches(log[u - 1], p, i)
    ensures UndoByte(log, pending, v, p, i) == v
    decreases |pending|
  {
    if pending != [] {
      UndoByteUntouched(log, Front(pending), v, p, i);
    }
  }

  // ---- Undo of a strict log restores the committed bytes ----

  ghost predicate OnlyOwner(log: seq<Record>, t: TxnId, p: PageId, i: nat)
  {
    forall s :: s != t ==> !PendingTouches(log, s, p, i)
  }

  ghost function CurrentByte(base: seq<PageData>, log: seq<Record>, p: PageId, i: nat): byte
    requires p < |base| && i < PAGE_SIZE
  {
    PageAfter(base, log, p).data[i]
  }

  ghost function CommittedByte(base: seq<PageData>, log: seq<Record>, p: PageId, i: nat): byte
    requires p < |base| && i < PAGE_SIZE
  {
    CommittedData(base, log, CommittedSet(log), p)[i]
  }

  ghost function RestoredByte(base: seq<PageData>, log: seq<Record>, t: TxnId, p: PageId, i: nat): byte
    requires WellFormed(base, log) && p < |base| && i < PAGE_SIZE
  {
    UndoByte(log, Pending(log, t), CurrentByte(base, log, p, i), p, i)
  }

  lemma {:induction false} CommittedByteStep(base: seq<PageData>, log: seq<Record>, p: PageId, i: nat)
    requires WellFormed(base, log) && log != [] && p < |base| && i < PAGE_SIZE
    requires !Last(log).kind.Commit?
    ensures CommittedByte(base, log, p, i) == CommittedByte(base, Front(log), p, i)
  {
    forall t ensures t in CommittedSet(log) <==> t in CommittedSet(Front(log)) { CommittedStep(log, t); }
    assert CommittedSet(log) == CommittedSet(Front(log));
    if Last(log).kind.Update? {
      assert !Committed(Front(log), Last(log).txn);
    }
  }

  /** A transaction with nothing pending on the byte restores it to what it already is. */
  lemma {:induction false} RestoredIfUntouched(base: seq<PageData>, log: seq<Record>, t: TxnId, p: PageId, i: nat)
    requires WellFormed(base, log) && p < |base| && i < PAGE_SIZE && !PendingTouches(log, t, p, i)
    ensures RestoredByte(base, log, t, p, i) == CurrentByte(base, log, p, i)
  {
    UndoByteUntouched(log, Pending(log, t), CurrentByte(base, log, p, i), p, i);
  }

  /** An update's before-image is the byte it overwrites, so undoing through it changes nothing. */
  lemma {:induction false} RestoredByUpdate(base: seq<PageData>, log: seq<Record>, p: PageId, i: nat)
    requires WellFormed(base, log) && log != [] && p < |base| && i < PAGE_SIZE && Last(log).kind.Update?
    ensures var t := Last(log).txn;
            RestoredByte(base, log, t, p, i) == UndoByte(log, Pending(Front(log), t), CurrentByte(base, Front(log), p, i), p, i)
  {
    var pre, r := Front(log), Last(log);
    PendingStep(base, log, r.txn);
    assert Front(Pending(log, r.txn)) == Pending(pre, r.txn);
    assert UpdateOk(base, pre, r);
    if Touches(r, p, i) {
      assert r.kind.before[i - r.kind.offset] == CurrentByte(base, pre, p, i);
    } else {
      assert CurrentByte(base, log, p, i) == CurrentByte(base, pre, p, i);
    }
  }

  /** A compensation performs the undo step it pops. */
  lemma {:induction false} RestoredByClr(base: seq<PageData>, log: seq<Record>, p: PageId, i: nat)
    requires WellFormed(base, log) && log != [] && p < |base| && i < PAGE_SIZE && Last(log).kind.Clr?
    ensures var t := Last(log).txn;
            RestoredByte(base, log, t, p, i) == UndoByte(log, Pending(Front(log), t), CurrentByte(base, Front(log), p, i), p, i)
  {
    var pre, t := Front(log), Last(log).txn;
    PendingStep(base, log, t);
    var u := Last(Pending(pre, t));
    assert log[u - 1] == pre[u - 1];
  }

  /** Appending a record other than a commit does not change what undoing its own transaction gives. */
  lemma {:induction false} RestoredStep(base: seq<PageData>, log: seq<Record>, t: TxnId, p: PageId, i: nat)
    requires WellFormed(base, log) && log != [] && p < |base| && i < PAGE_SIZE
    requires !Last(log).kind.Commit?
    requires t == Last(log).txn || !Touches(Last(log), p, i)
    ensures RestoredByte(base, log, t, p, i) == RestoredByte(base, Front(log), t, p, i)
  {
    var pre, r := Front(log), Last(log);
    UndoByteFrame(pre, log, Pending(pre, t), CurrentByte(base, pre, p, i), p, i);
    if t == r.txn && r.kind.Update? {
      RestoredByUpdate(base, log, p, i);
    } else if t == r.txn && r.kind.Clr? {
      RestoredByClr(base, log, p, i);
    } else {
      PendingStep(base, log, t);
    }
  }

  /** A commit makes the byte's current value the committed one, if the committing transaction owned it. */
  lemma {:induction false} CommitPublishes(base: seq<PageData>, log: seq<Record>, p: PageId, i: nat)
    requires WellFormed(base, log) && log != [] && p < |base| && i < PAGE_SIZE
    requires Last(log).kind.Commit? && PendingTouches(Front(log), Last(log).txn, p, i)
    ensures CommittedByte(base, log, p, i) == CurrentByte(base, log, p, i)
  {
    var pre, t := Front(log), Last(log).txn;
    var u :| u in Pending(pre, t) && Touches(pre[u - 1], p, i);
    var c := CommittedSet(log);
    CommittedStep(log, t);
    forall k | u <= k < |pre| && Touches(pre[k], p, i)
      ensures pre[k].kind.Update? && pre[k].txn in c
    {
      OwnerWritesLast(base, pre, t, u, k + 1, p, i);
    }
    OwnerWritesLast(base, pre, t, u, u, p, i);
    ReplayAgrees(base, pre, c, u, p, i);
  }

  lemma {:induction false} CommitElsewhere(base: seq<PageData>, log: seq<Record>, p: PageId, i: nat)
    requires WellFormed(base, log) && log != [] && p < |base| && i < PAGE_SIZE
    requires Last(log).kind.Commit? && !PendingTouches(Front(log), Last(log).txn, p, i)
    ensures CommittedByte(base, log, p, i) == CommittedByte(base, Front(log), p, i)
  {
    var pre, t := Front(log), Last(log).txn;
    forall s ensures s in CommittedSet(log) <==> s in CommittedSet(pre) + {t} { CommittedStep(log, s); }
    assert CommittedSet(log) == CommittedSet(pre) + {t};
    forall k | 0 <= k < |pre| && pre[k].txn == t && pre[k].kind.Update? ensures !Touches(pre[k], p, i) {
      OpenMeansAllPending(base, pre, t, k + 1);
    }
    ReplayIgnores(base, pre, CommittedSet(pre), t, p, i);
  }

  /** The heart of recovery: on every byte that no other unfinished transaction has touched, undoing
      a transaction's pending updates newest first leaves exactly the committed-only replay. */
  lemma {:induction false} UndoRestoresCommitted(base: seq<PageData>, log: seq<Record>, t: TxnId, p: PageId, i: nat)
    requires WellFormed(base, log) && p < |base| && i < PAGE_SIZE && OnlyOwner(log, t, p, i)
    ensures RestoredByte(base, log, t, p, i) == CommittedByte(base, log, p, i)
    decreases |log|
  {
    if log == [] {
      assert Pending(log, t) == [];
    } else if Last(log).kind.Commit? {
      UndoAcrossCommit(base, log, t, p, i);
    } else {
      var pre, r := Front(log), Last(log);
      CommittedByteStep(base, log, p, i);
      if t == r.txn || !Touches(r, p, i) {
        RestoredStep(base, log, t, p, i);
        OnlyOwnerBefore(base, log, t, p, i);
        UndoRestoresCommitted(base, pre, t, p, i);
      } else {
        UndoAcrossForeignWrite(base, log, t, p, i);
      }
    }
  }

  lemma {:induction false} UndoAcrossForeignWrite(base: seq<PageData>, log: seq<Record>, t: TxnId, p: PageId, i: nat)
    requires WellFormed(base, log) && log != [] && p < |base| && i < PAGE_SIZE && OnlyOwner(log, t, p, i)
    requires t != Last(log).txn && Touches(Last(log), p, i)
    ensures RestoredByte(base, log, t, p, i) == CommittedByte(base, log, p, i)
    decreases |log|, 0
  {
    var pre, s := Front(log), Last(log).txn;
    PendingStep(base, log, s);
    if Last(log).kind.Update? {
      assert |log| in Pending(log, s);
      assert PendingTouches(log, s, p, i);
    } else {
      forall o | o != s ensures !PendingTouches(pre, o, p, i) {
        if PendingTouches(pre, o, p, i) { WriterIsOwner(base, log, o, p, i); }
      }
      UndoRestoresCommitted(base, pre, s, p, i);
      CommittedByteStep(base, log, p, i);
      RestoredStep(base, log, s, p, i);
      RestoredIfUntouched(base, log, s, p, i);
      if PendingTouches(log, t, p, i) { PendingTouchesBefore(base, log, t, p, i); }
      RestoredIfUntouched(base, log, t, p, i);
    }
  }

  lemma {:induction false} UndoAcrossCommit(base: seq<PageData>, log: seq<Record>, t: TxnId, p: PageId, i: nat)
    requires WellFormed(base, log) && log != [] && p < |base| && i < PAGE_SIZE && OnlyOwner(log, t, p, i)
    requires Last(log).kind.Commit?
    ensures RestoredByte(base, log, t, p, i) == CommittedByte(base, log, p, i)
    decreases |log|, 0
  {
    var pre, s := Front(log), Last(log).txn;
    PendingStep(base, log, t);
    if PendingTouches(pre, s, p, i) {
      CommitPublishes(base, log, p, i);
      if t != s { OneOwner(base, pre, s, t, p, i); }
      if PendingTouches(log, t, p, i) { PendingTouchesBefore(base, log, t, p, i); }
      RestoredIfUntouched(base, log, t, p, i);
    } else {
      CommitElsewhere(base, log, p, i);
      forall o | o != t ensures !PendingTouches(pre, o, p, i) {
        if PendingTouches(pre, o, p, i) { PendingTouchesAfter(base, log, o, p, i); }
      }
      UndoRestoresCommitted(base, pre, t, p, i);
      if t == s {
        RestoredIfUntouched(base, pre, t, p, i);
      } else {
        UndoByteFrame(pre, log, Pending(pre, t), CurrentByte(base, pre, p, i), p, i);
      }
    }
  }

  lemma {:induction false} OnlyOwnerBefore(base: seq<PageData>, log: seq<Record>, t: TxnId, p: PageId, i: nat)
    requires WellFormed(base, log) && log != [] && OnlyOwner(log, t, p, i)
    requires !Last(log).kind.Commit? && (t == Last(log).txn || !Touches(Last(log), p, i))
    ensures OnlyOwner(Front(log), t, p, i)
  {
    var pre, r := Front(log), Last(log);
    forall s | s != t ensures !PendingTouches(pre, s, p, i) {
      if PendingTouches(pre, s, p, i) {
        if s == r.txn && r.kind.Clr? {
          PendingTouchesAfterClr(base, log, p, i);
        } else {
          PendingTouchesAfter(base, log, s, p, i);
        }
      }
    }
  }

  /** No transaction has anything left to undo. */
  ghost predicate Resolved(log: seq<Record>)
  {
    forall t :: Pending(log, t) == []
  }

  /** Once nothing is pending, repeating history and replaying only committed updates agree on every page. */
  lemma {:induction false} ResolvedMeansCommitted(base: seq<PageData>, log: seq<Record>, p: PageId)
    requires WellFormed(base, log) && p < |base| && Resolved(log)
    ensures PageAfter(base, log, p).data == CommittedData(base, log, CommittedSet(log), p)
  {
    var t := CHECKPOINT_TXN;
    forall i | 0 <= i < PAGE_SIZE
      ensures PageAfter(base, log, p).data[i] == CommittedData(base, log, CommittedSet(log), p)[i]
    {
      UndoRestoresCommitted(base, log, t, p, i);
      RestoredIfUntouched(base, log, t, p, i);
    }
  }

  // ---- Growing and cutting a log ----

  lemma {:induction false} AppendShape(base: seq<PageData>, log: seq<Record>, r: Record)
    requires Chained(log) && WritesFit(log) && Admissible(base, log, r)
    ensures Chained(log + [r]) && WritesFit(log + [r])
  {
    if r.kind.Clr? {
      var u := Last(Pending(log, r.txn));
      assert log[u - 1].prev <= u - 1;
    }
    var next := log + [r];
    forall i | 0 <= i < |next|
      ensures next[i].prev <= i && (next[i].kind.Clr? ==> next[i].kind.undoNext <= i)
    { assert i < |log| ==> next[i] == log[i]; }
  }

  lemma {:induction false} Append(base: seq<PageData>, log: seq<Record>, r: Record)
    requires WellFormed(base, log) && Admissible(base, log, r)
    ensures WellFormed(base, log + [r])
    ensures Front(log + [r]) == log && Last(log + [r]) == r
  {
    AppendShape(base, log, r);
    assert Front(log + [r]) == log;
  }

  lemma {:induction false} Cut(base: seq<PageData>, log: seq<Record>, n: nat)
    requires WellFormed(base, log) && n <= |log|
    ensures WellFormed(base, log[..n])
    decreases |log|
  {
    if n < |log| {
      assert Front(log)[..n] == log[..n];
      Cut(base, Front(log), n);
    } else {
      assert log[..n] == log;
    }
  }

  /** A transaction that can never again have anything to undo. */
  predicate Closed(log: seq<Record>, t: TxnId)
  {
    LastLsn(log, t) > 0 && !Open(log, t) && Pending(log, t) == []
  }

  lemma {:induction false} OpenStep(log: seq<Record>, t: TxnId)
    requires log != [] && Open(log, t) && LastLsn(Front(log), t) > 0
    ensures Open(Front(log), t)
  {
    var pre := Front(log);
    forall j | 0 <= j < |pre| && pre[j].txn == t
      ensures pre[j].kind.Begin? || pre[j].kind.Update? || pre[j].kind.AllocPage?
    { assert log[j] == pre[j]; }
  }

  lemma {:induction false} ClosedStays(base: seq<PageData>, log: seq<Record>, n: nat, t: TxnId)
    requires WellFormed(base, log) && n <= |log| && Chained(log[..n]) && Closed(log[..n], t)
    ensures Closed(log, t)
    decreases |log|
  {
    if n == |log| {
      assert log[..n] == log;
    } else {
      var pre := Front(log);
      assert pre[..n] == log[..n];
      ClosedStays(base, pre, n, t);
      PendingStep(base, log, t);
      if Open(log, t) { OpenStep(log, t); }
    }
  }

  lemma {:induction false} PendingIsOwn(base: seq<PageData>, log: seq<Record>, t: TxnId, u: Lsn)
    requires WellFormed(base, log) && u in Pending(log, t)
    ensures log[u - 1].txn == t
    decreases |log|
  {
    StillPending(base, log, t, u);
    if u < |log| {
      PendingIsOwn(base, Front(log), t, u);
    }
  }

  lemma {:induction false} PendingWas(base: seq<PageData>, log: seq<Record>, n: nat, t: TxnId, u: Lsn)
    requires WellFormed(base, log) && u <= n <= |log| && u in Pending(log, t)
    ensures WellFormed(base, log[..n]) && u in Pending(log[..n], t)
    decreases |log|
  {
    Cut(base, log, n);
    if n == |log| {
      assert log[..n] == log;
    } else {
      StillPending(base, log, t, u);
      assert Front(log)[..n] == log[..n];
      PendingWas(base, Front(log), n, t, u);
    }
  }

  /** The update that the compensation record at index `i` undoes. */
  ghost function Compensated(base: seq<PageData>, log: seq<Record>, i: nat): (u: Lsn)
    requires WellFormed(base, log) && i < |log| && log[i].kind.Clr?
    ensures 0 < u <= i && WellFormed(base, log[..i]) && u in Pending(log[..i], log[i].txn)
  {
    Cut(base, log, i);
    Cut(base, log, i + 1);
    assert Front(log[..i + 1]) == log[..i] && Last(log[..i + 1]) == log[i];
    Last(Pending(log[..i], log[i].txn))
  }

  lemma {:induction false} TopIsPopped(base: seq<PageData>, log: seq<Record>)
    requires WellFormed(base, log) && log != [] && Last(log).kind.Clr? && Pending(Front(log), Last(log).txn) != []
    ensures Last(Pending(Front(log), Last(log).txn)) !in Pending(log, Last(log).txn)
  {
    var pre, t := Front(log), Last(log).txn;
    PendingStep(base, log, t);
    WalkBelowTop(pre, LastLsn(pre, t));
  }

  lemma {:induction false} CompensatedIsOwn(base: seq<PageData>, log: seq<Record>, i: nat)
    requires WellFormed(base, log) && i < |log| && log[i].kind.Clr?
    ensures log[Compensated(base, log, i) - 1].txn == log[i].txn
  {
    var u := Compensated(base, log, i);
    PendingIsOwn(base, log[..i], log[i].txn, u);
    assert log[..i][u - 1] == log[u - 1];
  }

  lemma {:induction false} CompensatedIsGone(base: seq<PageData>, log: seq<Record>, i: nat)
    requires WellFormed(base, log) && i < |log| && log[i].kind.Clr?
    ensures WellFormed(base, log[..i + 1])
    ensures Compensated(base, log, i) !in Pending(log[..i + 1], log[i].txn)
  {
    Cut(base, log, i + 1);
    assert Front(log[..i + 1]) == log[..i] && Last(log[..i + 1]) == log[i];
    TopIsPopped(base, log[..i + 1]);
  }

  lemma {:induction false} GoneForGood(base: seq<PageData>, log: seq<Record>, n: nat, u: Lsn, s: TxnId)
    requires WellFormed(base, log) && 0 < u <= n <= |log| && WellFormed(base, log[..n])
    requires u !in Pending(log[..n], log[u - 1].txn)
    ensures u !in Pending(log, s)
  {
    if u in Pending(log, s) {
      PendingIsOwn(base, log, s, u);
      PendingWas(base, log, n, s, u);
    }
  }

  /** No update is ever compensated twice, however often undo is interrupted and restarted. */
  lemma {:induction false} CompensatedOnce(base: seq<PageData>, log: seq<Record>, i: nat, j: nat)
    requires WellFormed(base, log) && i < j < |log| && log[i].kind.Clr? && log[j].kind.Clr?
    ensures Compensated(base, log, i) != Compensated(base, log, j)
  {
    var u := Compensated(base, log, i);
    Cut(base, log, j);
    assert log[..j][..i + 1] == log[..i + 1] && log[..j][u - 1] == log[u - 1];
    CompensatedIsOwn(base, log, i);
    CompensatedIsGone(base, log, i);
    GoneForGood(base, log[..j], i + 1, u, log[j].txn);
  }

  /** Undo appends nothing that committed-only replay looks at. */
  predicate UndoRecord(r: Record)
  {
    r.kind.Clr? || r.kind.Abort? || r.kind.End?
  }

  lemma {:induction false} UndoKeepsCommitted(base: seq<PageData>, log: seq<Record>, n: nat, p: PageId)
    requires WritesFit(log) && n <= |log| && p < |base|
    requires forall i :: n <= i < |log| ==> UndoRecord(log[i])
    ensures WritesFit(log[..n]) && CommittedSet(log[..n]) == CommittedSet(log)
    ensures CommittedData(base, log[..n], CommittedSet(log[..n]), p) == CommittedData(base, log, CommittedSet(log), p)
    decreases |log|
  {
    if n == |log| {
      assert log[..n] == log;
    } else {
      assert Front(log)[..n] == log[..n];
      UndoKeepsCommitted(base, Front(log), n, p);
      forall t ensures Committed(log, t) <==> Committed(Front(log), t) { CommittedStep(log, t); }
      assert CommittedSet(log) == CommittedSet(Front(log));
    }
  }
}
