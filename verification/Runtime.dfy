/** The volatile side of the engine: cached pages, dirty page table, active transactions, and the
    checkpoints in flight; and that each kind of log append keeps it right. */
module Runtime {
  import opened LogRecords
  import opened History
  import opened CrashSafety
  import opened Analysis

  /** How far an unfinished transaction has come. */
  datatype TxnState =
    | Growing
    | Undoing(cursor: Lsn)       // rolling back: the record to look at next, 0 when the chain is done
    | RolledBack                 // its Abort is logged
    | Ended                      // its End is logged
    | Committing                 // its Commit is logged, perhaps not durable yet

  datatype Txn = Txn(begin: Lsn, state: TxnState)

  /** How far the checkpoint that holds the transaction manager has come. */
  datatype Flight =
    | Idle
    | Collecting(c: Lsn, att: seq<(TxnId, Lsn)>, left: set<TxnId>, dpt: seq<(PageId, Lsn)>, rest: set<PageId>)
    | Logged(c: Lsn, low: Lsn)                        // its CheckpointEnd is logged
    | Synced(c: Lsn, low: Lsn)                        // and durable
    | Opened(c: Lsn, low: Lsn, t: TxnId)              // the header transaction has begun
    | Written(c: Lsn, low: Lsn, t: TxnId, at: nat)    // and has written page 0, in the record at this index

  datatype Volatile = Volatile(
    cache: seq<Page>,            // what fetching a page returns
    dirty: seq<Lsn>,             // dirty_since_lsn per page, 0 when clean
    active: map<TxnId, Txn>,
    nextTxn: TxnId,
    bounds: set<Lsn>,            // truncation bounds of checkpoints written but not finished
    ready: set<Lsn>,             // those whose checkpoint has flushed page 0
    flight: Flight)

  ghost predicate CacheOk(s: Store, cache: seq<Page>)
    requires Sized(s)
  {
    |cache| == |s.base| && forall p: PageId :: p < |cache| ==> cache[p] == PageAfter(s.base, s.log, p)
  }

  predicate DirtyPageOk(s: Store, cache: seq<Page>, dirty: seq<Lsn>, p: PageId)
    requires Sized(s) && p < |s.disk| == |cache| == |dirty|
  {
    if dirty[p] == 0 then s.disk[p] == cache[p]
    else s.truncated < dirty[p] <= |s.log| && Covered(s.log, s.disk[p], p, dirty[p])
  }

  predicate DirtyOk(s: Store, cache: seq<Page>, dirty: seq<Lsn>)
    requires Sized(s)
  {
    |s.disk| == |cache| == |dirty| && forall p: PageId :: p < |s.disk| ==> DirtyPageOk(s, cache, dirty, p)
  }

  /** Undo of `t` has reached `cursor`: what is still to be compensated lies on the chain from there. */
  ghost predicate AtCursor(log: seq<Record>, t: TxnId, cursor: Lsn)
  {
    && cursor <= |log| && (cursor > 0 ==> log[cursor - 1].txn == t)
    && !Committed(log, t) && Walk(log, cursor) == Pending(log, t)
  }

  ghost predicate StateOk(log: seq<Record>, t: TxnId, state: TxnState)
  {
    match state
    case Growing => Open(log, t)
    case Undoing(cursor) => AtCursor(log, t, cursor)
    case RolledBack => !Committed(log, t) && Pending(log, t) == [] && !Open(log, t)
    case Ended => !Committed(log, t) && Closed(log, t)
    case Committing => Committed(log, t)
  }

  /** `t` is unfinished, its first record is the one at `begin`, and it is where its state says. */
  ghost predicate ActiveTxn(log: seq<Record>, t: TxnId, x: Txn)
  {
    && t != CHECKPOINT_TXN
    && 0 < x.begin <= |log| && log[x.begin - 1].txn == t
    && (forall i :: 0 <= i < x.begin - 1 ==> log[i].txn != t)
    && StateOk(log, t, x.state)
  }

  ghost predicate TxnOk(log: seq<Record>, active: map<TxnId, Txn>, t: TxnId)
  {
    if t in active then ActiveTxn(log, t, active[t]) else Finished(log, t)
  }

  ghost predicate TxnsOk(log: seq<Record>, active: map<TxnId, Txn>, nextTxn: TxnId)
  {
    && nextTxn <= CHECKPOINT_TXN
    && (forall i :: 0 <= i < |log| && log[i].txn != CHECKPOINT_TXN ==> log[i].txn < nextTxn)
    && forall t :: TxnOk(log, active, t)
  }

  predicate Grows(active: map<TxnId, Txn>, t: TxnId)
  {
    t in active && active[t].state.Growing?
  }

  predicate Commits(active: map<TxnId, Txn>, t: TxnId)
  {
    t in active && active[t].state.Committing?
  }

  predicate DurablyCommitted(s: Store, t: TxnId)
  {
    s.durable <= |s.log| && Committed(s.log[..s.durable], t)
  }

  /** Only a transaction still inside `commit` can have a Commit record that is not durable. */
  ghost predicate CommitDurable(s: Store, active: map<TxnId, Txn>, t: TxnId)
    requires Sized(s)
  {
    Committed(s.log, t) ==> DurablyCommitted(s, t) || Commits(active, t)
  }

  /** Nobody is inside a call that holds the transaction manager: no commit, no checkpoint. */
  predicate Unlocked(v: Volatile)
  {
    v.flight.Idle? && forall t :: t in v.active ==> !v.active[t].state.Committing?
  }

  ghost predicate BoundOk(s: Store, dirty: seq<Lsn>, bound: Lsn)
    requires Sized(s)
  {
    && Disposable(s, bound)
    && NeedsOnlyFrom(s, HeaderAt(s.base, s.log, |s.log|), bound)
    && forall p: PageId :: p < |dirty| && dirty[p] > 0 ==> bound <= dirty[p]
  }

  /** Page 0 as it is on disk, and every later version, names a checkpoint that needs nothing below the bound. */
  ghost predicate ReadyOk(s: Store, bound: Lsn)
    requires Sized(s)
  {
    forall k :: s.disk[HEADER_PAGE].lsn <= k <= |s.log| ==> NamedNeeds(s, bound, k)
  }

  /** The log may be appended to and pages written: repeating history is reflected in the cache. */
  ghost predicate Live(s: Store, v: Volatile)
  {
    CrashSafe(s) && CacheOk(s, v.cache) && DirtyOk(s, v.cache, v.dirty)
  }

  // ---- What one append does to each part ----

  /** `copy_from_slice` and `set_page_lsn` on the cached page. */
  function Stamped(cache: seq<Page>, r: Record): seq<Page>
    requires r.kind.Writes() ==> r.kind.page < |cache| && r.kind.offset + |r.kind.after| <= PAGE_SIZE
  {
    if !r.kind.Writes() then cache
    else
      var p := r.kind.page;
      cache[p := Page(r.lsn, Overwrite(cache[p].data, r.kind.offset, r.kind.after))]
  }

  /** A page's first write since it was last clean fixes its `dirty_since_lsn`. */
  function Dirtied(dirty: seq<Lsn>, r: Record): seq<Lsn>
    requires r.kind.Writes() ==> r.kind.page < |dirty|
  {
    if r.kind.Writes() && dirty[r.kind.page] == 0 then dirty[r.kind.page := r.lsn] else dirty
  }

  lemma {:induction false} CacheAfterAppend(s: Store, s': Store, r: Record, cache: seq<Page>)
    requires Sized(s) && s' == s.(log := s.log + [r]) && Sized(s') && r.lsn == |s.log| + 1
    requires CacheOk(s, cache) && (r.kind.Writes() ==> r.kind.page < |cache|)
    ensures r.kind.Writes() ==> r.kind.offset + |r.kind.after| <= PAGE_SIZE
    ensures CacheOk(s', Stamped(cache, r))
  {
    assert s'.log[|s.log|] == r;
    assert Front(s'.log) == s.log && Last(s'.log) == r;
  }

  lemma {:induction false} DirtyAfterAppend(s: Store, s': Store, r: Record, cache: seq<Page>, dirty: seq<Lsn>)
    requires Sized(s) && s' == s.(log := s.log + [r]) && Sized(s') && r.lsn == |s.log| + 1
    requires CacheOk(s, cache) && DirtyOk(s, cache, dirty)
    requires r.kind.Writes() ==> r.kind.page < |cache| && r.kind.offset + |r.kind.after| <= PAGE_SIZE
    ensures DirtyOk(s', Stamped(cache, r), Dirtied(dirty, r))
  {
    var cache', dirty' := Stamped(cache, r), Dirtied(dirty, r);
    forall p: PageId | p < |s'.disk| ensures DirtyPageOk(s', cache', dirty', p) {
      assert DirtyPageOk(s, cache, dirty, p);
      if dirty[p] > 0 {
        CoveredMoves(s.log, s'.log, |s.log|, s.disk[p], s.disk[p], p, dirty[p]);
      } else if dirty'[p] > 0 {
        PageLsnIsPast(s.base, s.log, p);
        CoveredMoves(s.log, s'.log, |s.log|, s.disk[p], s.disk[p], p, dirty'[p]);
      }
    }
  }

  /** A record and the page write it describes. */
  predicate Appends(s: Store, v: Volatile, r: Record, s': Store, v': Volatile)
  {
    && s' == s.(log := s.log + [r])
    && Appendable(v, r)
    && v' == v.(cache := Stamped(v.cache, r), dirty := Dirtied(v.dirty, r), active := v'.active, nextTxn := v'.nextTxn,
                flight := v'.flight)
  }

  lemma {:induction false} LiveAppend(s: Store, v: Volatile, r: Record, s': Store, v': Volatile)
    requires Live(s, v) && Appends(s, v, r, s', v') && r.lsn == |s.log| + 1 && CrashSafe(s')
    ensures Live(s', v')
  {
    CacheAfterAppend(s, s', r, v.cache);
    DirtyAfterAppend(s, s', r, v.cache, v.dirty);
  }

  lemma {:induction false} DisposableMoves(s: Store, s': Store, bound: Lsn)
    requires Sized(s) && Sized(s') && Moves(s, s') && WellFormed(s'.base, s'.log) && Disposable(s, bound)
    ensures Disposable(s', bound)
  {
    forall i | 0 <= i < bound - 1 && s'.log[i].txn != CHECKPOINT_TXN
      ensures DurablyClosed(s', s'.log[i].txn) && HigherIdSurvives(s'.log, bound - 1, s'.durable, s'.log[i].txn)
    {
      assert s'.log[i] == s.log[i];
      DurablyClosedMoves(s, s', s.log[i].txn);
      var j :| bound - 1 <= j < s.durable && s.log[j].txn != CHECKPOINT_TXN && s.log[i].txn <= s.log[j].txn;
      assert s'.log[j] == s.log[j];
    }
  }

  lemma {:induction false} NeedsAfterAppend(s: Store, s': Store, r: Record, c: Lsn, bound: Lsn)
    requires Sized(s) && s' == s.(log := s.log + [r]) && Sized(s') && NeedsOnlyFrom(s, c, bound)
    ensures NeedsOnlyFrom(s', c, bound)
  {
    assert Agree(s.log, s'.log, |s.log|);
    FirstEndAgrees(s.log, s'.log, |s.log|, c);
    assert s'.log[FirstEnd(s.log, c)] == s.log[FirstEnd(s.log, c)];
  }

  lemma {:induction false} BoundAfterAppend(s: Store, s': Store, r: Record, dirty: seq<Lsn>, bound: Lsn)
    requires Sized(s) && s' == s.(log := s.log + [r]) && Sized(s') && WellFormed(s'.base, s'.log) && r.lsn == |s.log| + 1
    requires !TouchesHeader(r) && (r.kind.Writes() ==> r.kind.page < |dirty|)
    requires BoundOk(s, dirty, bound)
    ensures BoundOk(s', Dirtied(dirty, r), bound)
  {
    DisposableMoves(s, s', bound);
    var h := HeaderAt(s'.base, s'.log, |s'.log|);
    assert h == HeaderAt(s.base, s.log, |s.log|) by { HeaderUnchanged(s.base, s.log, r, s'.log); }
    NeedsAfterAppend(s, s', r, h, bound);
  }

  lemma {:induction false} NamedNeedsAfterAppend(s: Store, s': Store, r: Record, bound: Lsn, k: nat)
    requires Sized(s) && s' == s.(log := s.log + [r]) && Sized(s') && NamedNeeds(s, bound, k)
    ensures NamedNeeds(s', bound, k)
  {
    HeaderAtAgrees(s, s', k);
    NeedsAfterAppend(s, s', r, HeaderAt(s.base, s.log, k), bound);
  }

  /** Whatever is appended, a bound that is ready stays so if the checkpoint named afterwards needs nothing below it. */
  lemma {:induction false} ReadyAfterAppend(s: Store, s': Store, r: Record, bound: Lsn)
    requires Sized(s) && s' == s.(log := s.log + [r]) && Sized(s') && ReadyOk(s, bound)
    requires NeedsOnlyFrom(s', HeaderAt(s'.base, s'.log, |s'.log|), bound)
    ensures ReadyOk(s', bound)
  {
    forall k | s'.disk[HEADER_PAGE].lsn <= k <= |s'.log| ensures NamedNeeds(s', bound, k) {
      if k <= |s.log| {
        assert NamedNeeds(s, bound, k);
        NamedNeedsAfterAppend(s, s', r, bound, k);
      }
    }
  }

  lemma {:induction false} SettledAfterAppend(s: Store, s': Store, r: Record, w: int)
    requires Sized(s) && s' == s.(log := s.log + [r]) && Sized(s') && HeaderSettled(s, w)
    requires !TouchesHeader(r) || w == |s.log|
    ensures HeaderSettled(s', w)
  {
    assert s'.log[..s.durable] == s.log[..s.durable];
    assert s'.log[|s.log|] == r;
    assert forall i :: 0 <= i < |s.log| ==> s'.log[i] == s.log[i];
  }

  // ---- Transactions ----

  /** Undo of one transaction does not notice what the others log. */
  lemma {:induction false} CursorOfOthers(log: seq<Record>, r: Record, t: TxnId, cursor: Lsn)
    requires Chained(log + [r]) && r.txn != t && AtCursor(log, t, cursor)
    ensures AtCursor(log + [r], t, cursor)
  {
    var next := log + [r];
    assert Front(next) == log && Last(next) == r;
    CommittedStep(next, t);
    PendingOfOthers(next, t);
    WalkPrefix(log, next, cursor);
  }

  lemma {:induction false} StateOfOthers(base: seq<PageData>, log: seq<Record>, r: Record, t: TxnId, state: TxnState)
    requires WellFormed(base, log) && WellFormed(base, log + [r]) && r.txn != t && StateOk(log, t, state)
    ensures StateOk(log + [r], t, state)
  {
    var next := log + [r];
    assert Front(next) == log && Last(next) == r;
    CommittedStep(next, t);
    match state
    case Growing =>
    case Undoing(cursor) => CursorOfOthers(log, r, t, cursor);
    case RolledBack =>
      PendingOfOthers(next, t);
      if Open(next, t) { OpenStep(next, t); }
    case Ended =>
      assert next[..|log|] == log;
      ClosedStays(base, next, |log|, t);
    case Committing =>
  }

  /** A record of one transaction leaves every other transaction's status alone. */
  lemma {:induction false} OtherTxnAfterAppend(base: seq<PageData>, log: seq<Record>, r: Record, active: map<TxnId, Txn>, active': map<TxnId, Txn>, t: TxnId)
    requires WellFormed(base, log) && WellFormed(base, log + [r]) && r.txn != t && TxnOk(log, active, t)
    requires (t in active' <==> t in active) && (t in active ==> active'[t] == active[t])
    ensures TxnOk(log + [r], active', t)
  {
    var next := log + [r];
    if t in active {
      StateOfOthers(base, log, r, t, active[t].state);
    } else if t != CHECKPOINT_TXN {
      assert Front(next) == log && Last(next) == r;
      if LastLsn(log, t) > 0 {
        assert next[..|log|] == log;
        ClosedStays(base, next, |log|, t);
      }
    }
  }

  lemma {:induction false} IdsAfterAppend(log: seq<Record>, r: Record, active: map<TxnId, Txn>, nextTxn: TxnId)
    requires TxnsOk(log, active, nextTxn) && (r.txn == CHECKPOINT_TXN || r.txn in active)
    ensures forall i :: 0 <= i < |log + [r]| && (log + [r])[i].txn != CHECKPOINT_TXN ==> (log + [r])[i].txn < nextTxn
  {
    assert TxnOk(log, active, r.txn);
    if r.txn in active { assert log[active[r.txn].begin - 1].txn == r.txn; }
  }

  lemma {:induction false} FirstStays(log: seq<Record>, r: Record, t: TxnId, x: Txn, x': Txn)
    requires ActiveTxn(log, t, x) && x'.begin == x.begin && StateOk(log + [r], t, x'.state)
    ensures ActiveTxn(log + [r], t, x')
  {
    var next := log + [r];
    assert forall i :: 0 <= i < |log| ==> next[i] == log[i];
  }

  /** A record of an unfinished transaction, which moves on to `x`. */
  lemma {:induction false} TxnsAfterOwn(base: seq<PageData>, log: seq<Record>, r: Record, active: map<TxnId, Txn>, x: Txn, nextTxn: TxnId)
    requires WellFormed(base, log) && WellFormed(base, log + [r]) && TxnsOk(log, active, nextTxn)
    requires r.txn in active && x.begin == active[r.txn].begin && StateOk(log + [r], r.txn, x.state)
    ensures TxnsOk(log + [r], active[r.txn := x], nextTxn)
  {
    IdsAfterAppend(log, r, active, nextTxn);
    var next, active' := log + [r], active[r.txn := x];
    forall t ensures TxnOk(next, active', t) {
      assert TxnOk(log, active, t);
      if t == r.txn {
        FirstStays(log, r, t, active[t], x);
      } else {
        OtherTxnAfterAppend(base, log, r, active, active', t);
      }
    }
  }

  lemma {:induction false} TxnsAfterCheckpointRecord(base: seq<PageData>, log: seq<Record>, r: Record, active: map<TxnId, Txn>, nextTxn: TxnId)
    requires WellFormed(base, log) && WellFormed(base, log + [r]) && TxnsOk(log, active, nextTxn) && r.txn == CHECKPOINT_TXN
    ensures TxnsOk(log + [r], active, nextTxn)
  {
    IdsAfterAppend(log, r, active, nextTxn);
    forall t ensures TxnOk(log + [r], active, t) {
      assert TxnOk(log, active, t);
      if t != r.txn { OtherTxnAfterAppend(base, log, r, active, active, t); }
    }
  }

  lemma {:induction false} NewTxnIsOpen(log: seq<Record>, active: map<TxnId, Txn>, t: TxnId, r: Record)
    requires TxnsOk(log, active, t) && t != CHECKPOINT_TXN && r.txn == t && r.kind.Begin?
    ensures Open(log + [r], t) && t !in active && LastLsn(log, t) == 0 && forall i :: 0 <= i < |log| ==> log[i].txn != t
  {
    assert TxnOk(log, active, t);
    var next := log + [r];
    assert Front(next) == log && Last(next) == r;
    forall i | 0 <= i < |next| && next[i].txn == t ensures i == |log| {
    }
  }

  lemma {:induction false} BeginIsAdmissible(base: seq<PageData>, log: seq<Record>, r: Record)
    requires WellFormed(base, log) && LastLsn(log, r.txn) == 0 && r.txn != CHECKPOINT_TXN && r == Record(|log| + 1, 0, r.txn, Begin)
    ensures WellFormed(base, log + [r])
  {
    Append(base, log, r);
  }

  lemma {:induction false} TxnsAfterBegin(base: seq<PageData>, log: seq<Record>, r: Record, active: map<TxnId, Txn>, nextTxn: TxnId)
    requires WellFormed(base, log) && TxnsOk(log, active, nextTxn) && nextTxn < CHECKPOINT_TXN
    requires r == Record(|log| + 1, LastLsn(log, nextTxn), nextTxn, Begin)
    ensures TxnsOk(log + [r], active[nextTxn := Txn(|log| + 1, Growing)], nextTxn + 1)
  {
    NewTxnIsOpen(log, active, nextTxn, r);
    BeginIsAdmissible(base, log, r);
    var next, active' := log + [r], active[nextTxn := Txn(|log| + 1, Growing)];
    forall t ensures TxnOk(next, active', t) {
      if t == r.txn {
        NewTxnIsActive(log, r, active'[t]);
      } else {
        assert TxnOk(log, active, t);
        OtherTxnAfterAppend(base, log, r, active, active', t);
      }
    }
  }

  lemma {:induction false} NewTxnIsActive(log: seq<Record>, r: Record, x: Txn)
    requires Open(log + [r], r.txn) && LastLsn(log, r.txn) == 0 && x == Txn(|log| + 1, Growing) && r.txn != CHECKPOINT_TXN
    requires forall i :: 0 <= i < |log| ==> log[i].txn != r.txn
    ensures ActiveTxn(log + [r], r.txn, x)
  {
    var next := log + [r];
    assert next[|log|] == r && forall i :: 0 <= i < |log| ==> next[i] == log[i];
  }

  lemma {:induction false} TxnsAfterRemove(log: seq<Record>, active: map<TxnId, Txn>, nextTxn: TxnId, t: TxnId)
    requires TxnsOk(log, active, nextTxn) && Closed(log, t)
    ensures TxnsOk(log, active - {t}, nextTxn)
  {
    forall o ensures TxnOk(log, active - {t}, o) { assert TxnOk(log, active, o); }
  }

  /** The cursor of a rollback moves without a record being logged. */
  lemma {:induction false} TxnsAfterChange(log: seq<Record>, active: map<TxnId, Txn>, nextTxn: TxnId, t: TxnId, x: Txn)
    requires TxnsOk(log, active, nextTxn) && t in active && x.begin == active[t].begin && StateOk(log, t, x.state)
    ensures TxnsOk(log, active[t := x], nextTxn)
  {
    var active' := active[t := x];
    forall o ensures TxnOk(log, active', o) { assert TxnOk(log, active, o); }
  }

  /** The record of a page write is admissible: the cached bytes are the before-image. */
  lemma {:induction false} WriteIsAdmissible(s: Store, v: Volatile, r: Record)
    requires Live(s, v) && r.kind.Update? && r.kind.page < |v.cache| && Open(s.log, r.txn)
    requires r.lsn == |s.log| + 1 && r.prev == LastLsn(s.log, r.txn)
    requires BODY_START <= r.kind.offset && r.kind.offset + |r.kind.after| <= PAGE_SIZE
    requires r.kind.before == v.cache[r.kind.page].data[r.kind.offset..r.kind.offset + |r.kind.after|]
    requires Strict(s.log, r)
    ensures Admissible(s.base, s.log, r)
  {
  }

  lemma {:induction false} StillOpen(log: seq<Record>, r: Record)
    requires Open(log, r.txn) && (r.kind.Update? || r.kind.AllocPage?)
    ensures Open(log + [r], r.txn) && LastLsn(log + [r], r.txn) == |log| + 1
  {
    assert Front(log + [r]) == log;
  }

  // ---- Flushing ----

  lemma {:induction false} LiveSync(s: Store, v: Volatile, d: nat)
    requires Live(s, v) && s.durable <= d <= |s.log|
    ensures Live(s.(durable := d), v)
  {
    SyncSafe(s, d);
    forall p: PageId | p < |s.disk| ensures DirtyPageOk(s.(durable := d), v.cache, v.dirty, p) {
      assert DirtyPageOk(s, v.cache, v.dirty, p);
    }
  }

  lemma {:induction false} SettledMoves(s: Store, s': Store, w: int)
    requires Sized(s) && Sized(s') && Moves(s, s') && s'.log == s.log && WellFormed(s.base, s.log) && HeaderSettled(s, w)
    ensures HeaderSettled(s', w)
  {
    forall i | 0 <= i < |s'.log| && TouchesHeader(s'.log[i]) && i != w ensures DurablyClosed(s', s'.log[i].txn) {
      DurablyClosedMoves(s, s', s.log[i].txn);
    }
  }

  lemma {:induction false} BoundMoves(s: Store, s': Store, dirty: seq<Lsn>, dirty': seq<Lsn>, bound: Lsn)
    requires Sized(s) && Sized(s') && Moves(s, s') && s'.log == s.log && WellFormed(s.base, s.log) && BoundOk(s, dirty, bound)
    requires |dirty'| == |dirty| && forall p: PageId :: p < |dirty| ==> dirty'[p] == 0 || dirty'[p] == dirty[p]
    ensures BoundOk(s', dirty', bound)
  {
    DisposableMoves(s, s', bound);
  }

  lemma {:induction false} ReadyMoves(s: Store, s': Store, bound: Lsn)
    requires Sized(s) && Sized(s') && Moves(s, s') && s'.log == s.log && ReadyOk(s, bound)
    ensures ReadyOk(s', bound)
  {
    forall k | s'.disk[HEADER_PAGE].lsn <= k <= |s'.log| ensures NamedNeeds(s', bound, k) {
      assert NamedNeeds(s, bound, k);
    }
  }

  lemma {:induction false} LiveFlush(s: Store, v: Volatile, p: PageId, s': Store, v': Volatile)
    requires Live(s, v) && p < |s.disk| && v.cache[p].lsn <= s.durable
    requires s' == s.(disk := s.disk[p := v.cache[p]]) && v' == v.(dirty := v.dirty[p := 0])
    ensures Live(s', v') && Moves(s, s')
  {
    PageLsnIsPast(s.base, s.log, p);
    if v.dirty[p] > 0 { assert DirtyPageOk(s, v.cache, v.dirty, p); }
    NewerThanDisk(s, v, p);
    PageWriteSafe(s, p, v.cache[p]);
    forall q: PageId | q < |s'.disk| ensures DirtyPageOk(s', v'.cache, v'.dirty, q) {
      assert DirtyPageOk(s, v.cache, v.dirty, q);
    }
  }

  /** A cached page is never older than its disk image. */
  lemma {:induction false} NewerThanDisk(s: Store, v: Volatile, p: PageId)
    requires Live(s, v) && p < |s.disk|
    ensures s.disk[p].lsn <= v.cache[p].lsn
  {
    PageLsnIsPast(s.base, s.log, p);
    var l := s.disk[p].lsn;
    assert Image(s.base, s.log, p, s.disk[p]);
    if l > 0 {
      LsnIsAWrite(s.base, s.log[..l], p);
      assert s.log[..l][l - 1] == s.log[l - 1];
    }
  }

  lemma {:induction false} LsnIsAWrite(base: seq<PageData>, log: seq<Record>, p: PageId)
    requires p < |base| && WritesFit(log)
    ensures var l := PageAfter(base, log, p).lsn; l <= |log| && (l > 0 ==> WritesPage(log[l - 1], p))
    decreases |log|
  {
    if log != [] {
      LsnIsAWrite(base, Front(log), p);
    }
  }

  // ---- Commit ----

  lemma {:induction false} LoggedCommitIsSafe(s: Store, r: Record, s': Store)
    requires CrashSafe(s) && Open(s.log, r.txn) && r == Record(|s.log| + 1, LastLsn(s.log, r.txn), r.txn, Commit)
    requires s' == s.(log := s.log + [r])
    ensures CrashSafe(s')
  {
    AppendShape(s.base, s.log, r);
    AppendSafe(s, s', r);
  }

  // ---- Undo ----

  /** Back pointers stay within one transaction. */
  lemma {:induction false} PrevIsOwn(base: seq<PageData>, log: seq<Record>, i: nat)
    requires WellFormed(base, log) && i < |log| && log[i].prev > 0
    ensures log[log[i].prev - 1].txn == log[i].txn
  {
    RecordWasAdmissible(base, log, i);
    assert log[..i][log[i].prev - 1] == log[log[i].prev - 1];
  }

  /** So do undo pointers. */
  lemma {:induction false} UndoNextIsOwn(base: seq<PageData>, log: seq<Record>, i: nat)
    requires WellFormed(base, log) && i < |log| && log[i].kind.Clr? && log[i].kind.undoNext > 0
    ensures log[log[i].kind.undoNext - 1].txn == log[i].txn
  {
    var u := ClrUndoes(base, log, i);
    PrevIsOwn(base, log, u - 1);
  }

  lemma {:induction false} ClrUndoes(base: seq<PageData>, log: seq<Record>, i: nat) returns (u: Lsn)
    requires WellFormed(base, log) && i < |log| && log[i].kind.Clr?
    ensures 0 < u <= i && log[u - 1].txn == log[i].txn && log[u - 1].prev == log[i].kind.undoNext
  {
    CompensatedIsOwn(base, log, i);
    CompensatedPrev(base, log, i);
    u := Compensated(base, log, i);
  }

  lemma {:induction false} CompensatedPrev(base: seq<PageData>, log: seq<Record>, i: nat)
    requires WellFormed(base, log) && i < |log| && log[i].kind.Clr?
    ensures log[Compensated(base, log, i) - 1].prev == log[i].kind.undoNext
  {
    ClrWasOk(base, log, i);
    var u := Compensated(base, log, i);
    assert log[..i][u - 1] == log[u - 1];
  }

  lemma {:induction false} ClrWasOk(base: seq<PageData>, log: seq<Record>, i: nat)
    requires WellFormed(base, log) && i < |log| && log[i].kind.Clr?
    ensures ClrOk(log[..i], log[i])
  {
    RecordWasAdmissible(base, log, i);
  }

  /** Where undo goes after the record `r`. */
  function UndoTarget(r: Record): Lsn
  {
    match r.kind
    case Clr(_, _, _, undoNext) => undoNext
    case Begin => 0
    case _ => r.prev
  }

  lemma {:induction false} UndoTargetIsOwn(base: seq<PageData>, log: seq<Record>, t: TxnId, cursor: Lsn)
    requires WellFormed(base, log) && 0 < cursor && AtCursor(log, t, cursor)
    ensures var n := UndoTarget(log[cursor - 1]);
            && n < cursor
            && (n > 0 ==> log[n - 1].txn == t)
            && (!log[cursor - 1].kind.Update? ==> AtCursor(log, t, n))
  {
    TargetIsOwn(base, log, cursor);
    WalkSkips(log, cursor);
  }

  lemma {:induction false} TargetIsOwn(base: seq<PageData>, log: seq<Record>, cursor: Lsn)
    requires WellFormed(base, log) && 0 < cursor <= |log|
    ensures var n := UndoTarget(log[cursor - 1]);
            n <= |log| && (n > 0 ==> log[n - 1].txn == log[cursor - 1].txn)
  {
    var r := log[cursor - 1];
    if r.kind.Clr? {
      if r.kind.undoNext > 0 { UndoNextIsOwn(base, log, cursor - 1); }
    } else if r.prev > 0 {
      PrevIsOwn(base, log, cursor - 1);
    }
  }

  lemma {:induction false} WalkSkips(log: seq<Record>, cursor: Lsn)
    requires Chained(log) && 0 < cursor <= |log|
    ensures UndoTarget(log[cursor - 1]) < cursor
    ensures !log[cursor - 1].kind.Update? ==> Walk(log, cursor) == Walk(log, UndoTarget(log[cursor - 1]))
  {
  }

  /** A transaction with something pending has its whole chain in the surviving log. */
  lemma {:induction false} PendingIsReadable(s: Store, t: TxnId, k: Lsn)
    requires CrashSafe(s) && 0 < k <= s.truncated && AtCursor(s.log, t, k) && t != CHECKPOINT_TXN
    ensures AtCursor(s.log, t, 0)
  {
    ClosedStays(s.base, s.log, s.durable, t);
  }

  /** The compensation of the update under the cursor is the one undo must append next. */
  lemma {:induction false} ClrIsAdmissible(base: seq<PageData>, log: seq<Record>, t: TxnId, cursor: Lsn, r: Record)
    requires WellFormed(base, log) && t != CHECKPOINT_TXN && 0 < cursor && AtCursor(log, t, cursor) && log[cursor - 1].kind.Update?
    requires var u := log[cursor - 1];
             r == Record(|log| + 1, LastLsn(log, t), t, Clr(u.kind.page, u.kind.offset, u.kind.before, u.prev))
    ensures Admissible(base, log, r) && r.kind.page < |base|
    ensures AtCursor(log + [r], t, log[cursor - 1].prev)
  {
    TopIsNext(log, t, cursor);
    ClrFits(base, log, t, cursor, r);
    UpdateWasOnAPage(base, log, cursor - 1);
    CursorMoves(base, log, t, cursor, r);
  }

  lemma {:induction false} TopIsNext(log: seq<Record>, t: TxnId, cursor: Lsn)
    requires 0 < cursor && AtCursor(log, t, cursor) && log[cursor - 1].kind.Update?
    ensures Pending(log, t) != [] && Last(Pending(log, t)) == cursor
  {
  }

  lemma {:induction false} ClrFits(base: seq<PageData>, log: seq<Record>, t: TxnId, cursor: Lsn, r: Record)
    requires t != CHECKPOINT_TXN && 0 < cursor <= |log| && log[cursor - 1].kind.Update?
    requires Pending(log, t) != [] && Last(Pending(log, t)) == cursor
    requires var u := log[cursor - 1];
             r == Record(|log| + 1, LastLsn(log, t), t, Clr(u.kind.page, u.kind.offset, u.kind.before, u.prev))
    ensures Admissible(base, log, r)
  {
  }

  lemma {:induction false} CursorMoves(base: seq<PageData>, log: seq<Record>, t: TxnId, cursor: Lsn, r: Record)
    requires WellFormed(base, log) && 0 < cursor && AtCursor(log, t, cursor) && log[cursor - 1].kind.Update? && Pending(log, t) != []
    requires Admissible(base, log, r) && r.txn == t && r.kind.Clr?
    ensures AtCursor(log + [r], t, log[cursor - 1].prev)
  {
    ClrPops(base, log, r);
    PrevStaysOwn(base, log, cursor - 1);
    CursorAfterClr(log, log + [r], t, cursor);
  }

  lemma {:induction false} PrevStaysOwn(base: seq<PageData>, log: seq<Record>, i: nat)
    requires WellFormed(base, log) && i < |log|
    ensures var prev := log[i].prev; prev > 0 ==> prev <= |log| && log[prev - 1].txn == log[i].txn
  {
    if log[i].prev > 0 { PrevIsOwn(base, log, i); }
  }

  lemma {:induction false} UpdateWasOnAPage(base: seq<PageData>, log: seq<Record>, i: nat)
    requires WellFormed(base, log) && i < |log| && log[i].kind.Update?
    ensures log[i].kind.page < |base|
  {
    RecordWasAdmissible(base, log, i);
  }

  lemma {:induction false} ClrPops(base: seq<PageData>, log: seq<Record>, r: Record)
    requires WellFormed(base, log) && Admissible(base, log, r) && r.kind.Clr? && Pending(log, r.txn) != [] && !Committed(log, r.txn)
    ensures Chained(log + [r]) && Pending(log + [r], r.txn) == Front(Pending(log, r.txn)) && !Committed(log + [r], r.txn)
  {
    var next := log + [r];
    Append(base, log, r);
    PendingStep(base, next, r.txn);
    CommittedStep(next, r.txn);
  }

  lemma {:induction false} CursorAfterClr(log: seq<Record>, next: seq<Record>, t: TxnId, cursor: Lsn)
    requires Chained(next) && log <= next && 0 < cursor && AtCursor(log, t, cursor) && log[cursor - 1].kind.Update?
    requires Pending(next, t) == Front(Pending(log, t)) && !Committed(next, t)
    requires var prev := log[cursor - 1].prev; prev > 0 ==> prev <= |log| && log[prev - 1].txn == t
    ensures AtCursor(next, t, log[cursor - 1].prev)
  {
    var prev := log[cursor - 1].prev;
    assert next[cursor - 1] == log[cursor - 1];
    WalkPrefix(log, next, prev);
    assert Front(Walk(log, cursor)) == Walk(log, prev);
  }

  /** The one header write that may be unfinished is not one a rollback would compensate. */
  lemma {:induction false} SettledHasNothingToUndo(s: Store, r: Record, w: int)
    requires Sized(s) && WellFormed(s.base, s.log) && HeaderSettled(s, w) && r.kind.Clr? && ClrOk(s.log, r)
    requires 0 <= w < |s.log| ==> s.log[w].txn != r.txn
    ensures !TouchesHeader(r)
  {
    if TouchesHeader(r) {
      var i := ClrOfHeader(s.log, r);
      PendingIsOwn(s.base, s.log, r.txn, i + 1);
      Cut(s.base, s.log, s.durable);
      ClosedStays(s.base, s.log, s.durable, r.txn);
    }
  }

  lemma {:induction false} ClrIsSafe(s: Store, v: Volatile, r: Record, s': Store, v': Volatile)
    requires Live(s, v) && r.kind.Clr? && Admissible(s.base, s.log, r) && r.kind.page < |v.cache| && Appends(s, v, r, s', v')
    ensures Live(s', v') && WellFormed(s'.base, s'.log)
  {
    AppendShape(s.base, s.log, r);
    AppendSafe(s, s', r);
    LiveAppend(s, v, r, s', v');
  }

  /** The Abort and End that close an undone transaction. */
  lemma {:induction false} CloseIsSafe(s: Store, v: Volatile, r: Record, s': Store, v': Volatile)
    requires Live(s, v) && (r.kind.Abort? || r.kind.End?) && Admissible(s.base, s.log, r) && Appends(s, v, r, s', v')
    ensures Live(s', v') && WellFormed(s'.base, s'.log)
    ensures Pending(s'.log, r.txn) == [] && !Open(s'.log, r.txn) && LastLsn(s'.log, r.txn) == |s'.log|
    ensures Committed(s'.log, r.txn) == Committed(s.log, r.txn)
  {
    AppendShape(s.base, s.log, r);
    Append(s.base, s.log, r);
    AppendSafe(s, s', r);
    LiveAppend(s, v, r, s', v');
    PendingStep(s.base, s'.log, r.txn);
    CommittedStep(s'.log, r.txn);
    assert s'.log[|s.log|] == r;
  }

  // ---- Redo ----

  /** Page `p` during redo: its cached image contains every write among the first `n` records. */
  ghost predicate RedonePage(s: Store, cache: seq<Page>, dirty: seq<Lsn>, n: nat, p: PageId)
    requires Sized(s) && p < |s.disk| == |cache| == |dirty|
  {
    && Image(s.base, s.log, p, cache[p]) && s.disk[p].lsn <= cache[p].lsn
    && Covered(s.log, cache[p], p, n + 1)
    && DirtyPageOk(s, cache, dirty, p)
  }

  ghost predicate Redone(s: Store, v: Volatile, n: nat)
  {
    && CrashSafe(s) && s.durable == |s.log| && n <= |s.log|
    && |s.disk| == |v.cache| == |v.dirty|
    && forall p: PageId :: p < |s.disk| ==> RedonePage(s, v.cache, v.dirty, n, p)
  }

  /** Redo's test: the page has not seen this record yet. */
  predicate NeedsRedo(cache: seq<Page>, r: Record)
  {
    r.kind.Writes() && r.kind.page < |cache| && cache[r.kind.page].lsn < r.lsn
  }

  lemma {:induction false} StampedIsImage(s: Store, page: Page, n: nat, p: PageId)
    requires Sized(s) && n < |s.log| && WritesPage(s.log[n], p) && p < |s.base|
    requires page.lsn <= n && Image(s.base, s.log, p, page) && Covered(s.log, page, p, n + 1)
    ensures var k := s.log[n].kind;
            k.offset + |k.after| <= PAGE_SIZE &&
            Page(n + 1, Overwrite(page.data, k.offset, k.after)) == PageAfter(s.base, s.log[..n + 1], p)
  {
    CoveredImage(s.base, s.log, p, page, n);
    assert Front(s.log[..n + 1]) == s.log[..n] && Last(s.log[..n + 1]) == s.log[n];
  }

  lemma {:induction false} RedoStepPage(s: Store, v: Volatile, n: nat, v': Volatile, p: PageId)
    requires Sized(s) && p < |s.disk| == |v.cache| == |v.dirty| && RedonePage(s, v.cache, v.dirty, n, p)
    requires s.truncated <= n < |s.log| && NeedsRedo(v.cache, s.log[n]) && s.log[n].lsn == n + 1
    requires Appendable(v, s.log[n]) && v' == v.(cache := Stamped(v.cache, s.log[n]), dirty := Dirtied(v.dirty, s.log[n]))
    ensures RedonePage(s, v'.cache, v'.dirty, n + 1, p)
  {
    if p == s.log[n].kind.page {
      StampedIsImage(s, v.cache[p], n, p);
      assert v.dirty[p] == 0 ==> Covered(s.log, s.disk[p], p, n + 1);
    } else {
      assert !WritesPage(s.log[n], p);
    }
  }

  lemma {:induction false} RedoStep(s: Store, v: Volatile, n: nat, v': Volatile)
    requires Redone(s, v, n) && s.truncated <= n < |s.log| && NeedsRedo(v.cache, s.log[n]) && s.log[n].lsn == n + 1
    requires Appendable(v, s.log[n]) && v' == v.(cache := Stamped(v.cache, s.log[n]), dirty := Dirtied(v.dirty, s.log[n]))
    ensures Redone(s, v', n + 1)
  {
    var next := n + 1;
    forall p: PageId | p < |s.disk| ensures RedonePage(s, v'.cache, v'.dirty, next, p) {
      assert RedonePage(s, v.cache, v.dirty, n, p);
      RedoStepPage(s, v, n, v', p);
    }
  }

  predicate Appendable(v: Volatile, r: Record)
  {
    r.kind.Writes() ==> r.kind.page < |v.cache| == |v.dirty| && r.kind.offset + |r.kind.after| <= PAGE_SIZE
  }

  lemma {:induction false} RedoSkip(s: Store, v: Volatile, n: nat)
    requires Redone(s, v, n) && n < |s.log| && !NeedsRedo(v.cache, s.log[n]) && s.log[n].lsn == n + 1
    ensures Redone(s, v, n + 1)
  {
    var next := n + 1;
    forall p: PageId | p < |s.disk| ensures RedonePage(s, v.cache, v.dirty, next, p) {
      RedoSkipPage(s, v, n, p);
    }
  }

  lemma {:induction false} RedoSkipPage(s: Store, v: Volatile, n: nat, p: PageId)
    requires Sized(s) && p < |s.disk| == |v.cache| == |v.dirty| && RedonePage(s, v.cache, v.dirty, n, p)
    requires n < |s.log| && !NeedsRedo(v.cache, s.log[n]) && s.log[n].lsn == n + 1
    ensures RedonePage(s, v.cache, v.dirty, n + 1, p)
  {
  }

  lemma {:induction false} RedoEvict(s: Store, v: Volatile, n: nat, p: PageId, s': Store, v': Volatile)
    requires Redone(s, v, n) && p < |s.disk|
    requires s' == s.(disk := s.disk[p := v.cache[p]]) && v' == v.(dirty := v.dirty[p := 0])
    ensures Redone(s', v', n)
  {
    assert RedonePage(s, v.cache, v.dirty, n, p);
    PageWriteSafe(s, p, v.cache[p]);
    forall q: PageId | q < |s'.disk| ensures RedonePage(s', v'.cache, v'.dirty, n, q) {
      assert RedonePage(s, v.cache, v.dirty, n, q);
    }
  }

  /** Once every record has been looked at, the cache is the whole history. */
  lemma {:induction false} RedoComplete(s: Store, v: Volatile)
    requires Redone(s, v, |s.log|)
    ensures Live(s, v)
  {
    assert s.log[..|s.log|] == s.log;
    forall p: PageId | p < |v.cache| ensures v.cache[p] == PageAfter(s.base, s.log, p) {
      assert RedonePage(s, v.cache, v.dirty, |s.log|, p);
      CoveredImage(s.base, s.log, p, v.cache[p], |s.log|);
    }
    forall p: PageId | p < |s.disk| ensures DirtyPageOk(s, v.cache, v.dirty, p) {
      assert RedonePage(s, v.cache, v.dirty, |s.log|, p);
    }
  }

  // ---- Restart ----

  /** The state of memory when the process starts: nothing cached, nothing running. */
  predicate Restarted(s: Store, v: Volatile)
  {
    && s.durable == |s.log| && v.cache == s.disk && |v.dirty| == |s.disk|
    && (forall p: PageId :: p < |v.dirty| ==> v.dirty[p] == 0)
    && v.active == map[] && v.bounds == {} && v.ready == {} && v.flight == Idle
  }

  lemma {:induction false} RestartHeader(s: Store)
    requires CrashSafe(s)
    ensures GoodCheckpoint(s, CheckpointLsn(s.disk[HEADER_PAGE].data))
    ensures CheckpointLsn(s.disk[HEADER_PAGE].data) <= s.durable
  {
    assert Image(s.base, s.log, HEADER_PAGE, s.disk[HEADER_PAGE]);
    assert HeaderAt(s.base, s.log, s.disk[HEADER_PAGE].lsn) == CheckpointLsn(s.disk[HEADER_PAGE].data);
  }

  /** Redo has reached record `n`. A proof looks inside only where it names the inner predicate. */
  ghost predicate Redoing(s: Store, v: Volatile, n: nat)
  {
    forall k: nat :: k == n ==> Redone(s, v, k)
  }

  lemma {:induction false} Reached(s: Store, v: Volatile, n: nat)
    requires Redone(s, v, n)
    ensures Redoing(s, v, n)
  {
  }

  lemma {:induction false} RedoBegins(s: Store, v: Volatile, start: Lsn)
    requires CrashSafe(s) && Restarted(s, v) && 0 < start <= |s.log| + 1
    requires forall p: PageId :: p < |s.disk| ==> Covered(s.log, s.disk[p], p, start)
    ensures Redoing(s, v, start - 1) && Numbered(s.log)
  {
    var n := start - 1;
    forall p: PageId | p < |s.disk| ensures RedonePage(s, v.cache, v.dirty, n, p) {
      assert Image(s.base, s.log, p, s.disk[p]);
    }
    Reached(s, v, n);
    WellFormedIsNumbered(s.base, s.log);
  }

  /** Only compensations, aborts and ends of `t` have been added to `before`. */
  predicate UndoneOnly(before: seq<Record>, log: seq<Record>, t: TxnId)
  {
    before <= log && forall i :: |before| <= i < |log| ==> log[i].txn == t && UndoRecord(log[i])
  }

  lemma {:induction false} UndoneOne(log: seq<Record>, r: Record)
    requires UndoRecord(r)
    ensures UndoneOnly(log, log + [r], r.txn)
  {
  }

  lemma {:induction false} UndoneMore(a: seq<Record>, b: seq<Record>, c: seq<Record>, t: TxnId)
    requires UndoneOnly(a, b, t) && UndoneOnly(b, c, t)
    ensures UndoneOnly(a, c, t)
  {
    assert forall i :: 0 <= i < |b| ==> c[i] == b[i];
  }

  /** Undo has added nothing but compensations, aborts and ends. */
  predicate Undone(before: seq<Record>, log: seq<Record>)
  {
    before <= log && forall i :: |before| <= i < |log| ==> UndoRecord(log[i])
  }

  lemma {:induction false} UndoneAlso(a: seq<Record>, b: seq<Record>, c: seq<Record>, t: TxnId)
    requires Undone(a, b) && UndoneOnly(b, c, t)
    ensures Undone(a, c)
  {
    assert forall i :: 0 <= i < |b| ==> c[i] == b[i];
  }

  lemma {:induction false} UndoneThen(a: seq<Record>, b: seq<Record>, c: seq<Record>)
    requires Undone(a, b) && Undone(b, c)
    ensures Undone(a, c)
  {
    assert forall i :: 0 <= i < |b| ==> c[i] == b[i];
  }

  lemma {:induction false} UndoneCut(a: seq<Record>, b: seq<Record>, c: seq<Record>)
    requires Undone(a, b) && c <= b && |a| <= |c|
    ensures Undone(a, c)
  {
    assert forall i :: 0 <= i < |c| ==> c[i] == b[i];
  }

  /** Undo still has the transactions in `left` to do, each from the LSN in `att`; all others are finished. */
  ghost predicate LeftToUndo(log: seq<Record>, att: map<TxnId, Lsn>, t: TxnId)
  {
    if t in att then t != CHECKPOINT_TXN && !Committed(log, t) && att[t] == LastLsn(log, t) && att[t] > 0
    else Finished(log, t)
  }

  lemma {:induction false} OthersUnaffected(base: seq<PageData>, before: seq<Record>, log: seq<Record>, att: map<TxnId, Lsn>, t: TxnId, o: TxnId)
    requires WellFormed(base, log) && UndoneOnly(before, log, t) && o != t && LeftToUndo(before, att, o)
    ensures LeftToUndo(log, att, o)
  {
    assert log[..|before|] == before;
    QuietTail(base, log, |before|, o);
    if Closed(before, o) { ClosedStays(base, log, |before|, o); }
  }

  lemma {:induction false} OneLess(base: seq<PageData>, before: seq<Record>, log: seq<Record>, att: map<TxnId, Lsn>, t: TxnId)
    requires WellFormed(base, log) && UndoneOnly(before, log, t) && Closed(log, t)
    requires forall o :: LeftToUndo(before, att, o)
    ensures forall o :: LeftToUndo(log, att - {t}, o)
  {
    forall o ensures LeftToUndo(log, att - {t}, o) {
      if o != t {
        assert LeftToUndo(before, att, o);
        OthersUnaffected(base, before, log, att, t, o);
      }
    }
  }

  /** The highest surviving id is the highest id ever used: truncation never makes the counter regress. */
  lemma {:induction false} SurvivingIdsSuffice(s: Store, next: TxnId)
    requires CrashSafe(s)
    requires forall i :: s.truncated <= i < |s.log| && s.log[i].txn != CHECKPOINT_TXN ==> s.log[i].txn < next
    ensures forall i :: 0 <= i < |s.log| && s.log[i].txn != CHECKPOINT_TXN ==> s.log[i].txn < next
  {
    forall i | 0 <= i < s.truncated && s.log[i].txn != CHECKPOINT_TXN ensures s.log[i].txn < next {
      assert HigherIdSurvives(s.log, s.truncated, s.durable, s.log[i].txn);
    }
  }

  // ---- Recovery as a whole ----

  function Losers(att: Att): map<TxnId, Lsn>
  {
    map t | t in att && !att[t].1 :: att[t].0
  }

  lemma {:induction false} LosersFound(s: Store, c: Lsn)
    requires CrashSafe(s) && GoodCheckpoint(s, c) && s.durable == |s.log|
    ensures c <= |s.log| && forall t :: LeftToUndo(s.log, Losers(FoundAtt(s.log, c)), t)
  {
    forall t ensures LeftToUndo(s.log, Losers(FoundAtt(s.log, c)), t) {
      AnalysisFindsLosers(s, c, t);
    }
  }

  lemma {:induction false} RedoCanStart(s: Store, v: Volatile, c: Lsn, start: Lsn)
    requires CrashSafe(s) && Restarted(s, v) && GoodCheckpoint(s, c)
    requires forall q :: q in FoundDpt(s.log, c) ==> start <= FoundDpt(s.log, c)[q]
    requires if FoundDpt(s.log, c) == map[] then start == |s.log| + 1
             else exists q :: q in FoundDpt(s.log, c) && start == FoundDpt(s.log, c)[q]
    ensures s.truncated < start && Redoing(s, v, start - 1) && Numbered(s.log)
  {
    if FoundDpt(s.log, c) != map[] {
      var q :| q in FoundDpt(s.log, c) && start == FoundDpt(s.log, c)[q];
      RedoReadsSurvivors(s, c, q);
    }
    forall p: PageId | p < |s.disk| ensures Covered(s.log, s.disk[p], p, start) {
      RedoStartIsLowEnough(s, c, p, start);
    }
    RedoBegins(s, v, start);
  }

  /** What recovery promises: each page holds exactly the committed updates of the log it started from. */
  ghost predicate Restored(s: Store, log: seq<Record>)
  {
    |s.base| == |s.disk| && forall p: PageId :: p < |s.disk| ==> PageRestored(s, log, p)
  }

  ghost predicate PageRestored(s: Store, log: seq<Record>, p: PageId)
    requires p < |s.base| == |s.disk|
  {
    s.disk[p].data == CommittedData(s.base, log, CommittedSet(log), p)
  }

  lemma {:induction false} FinishedIsResolved(base: seq<PageData>, log: seq<Record>)
    requires WellFormed(base, log) && forall t :: Finished(log, t)
    ensures Resolved(log)
  {
    forall t ensures Pending(log, t) == [] {
      assert Finished(log, t);
      if t == CHECKPOINT_TXN && Pending(log, t) != [] {
        var u := Last(Pending(log, t));
        PendingIsOwn(base, log, t, u);
        RecordWasAdmissible(base, log, u - 1);
      }
    }
  }

  lemma {:induction false} FinishedIsRestored(s: Store, v: Volatile, log: seq<Record>)
    requires Live(s, v) && s.disk == v.cache && Undone(log, s.log) && forall t :: Finished(s.log, t)
    ensures Restored(s, log)
  {
    FinishedIsResolved(s.base, s.log);
    assert s.log[..|log|] == log;
    forall p: PageId | p < |s.disk| ensures PageRestored(s, log, p) {
      ResolvedMeansCommitted(s.base, s.log, p);
      UndoKeepsCommitted(s.base, s.log, |log|, p);
    }
  }

  /** A recovery cut short and the crash that cut it leave nothing that changes what a later one restores. */
  lemma {:induction false} RestoredTransfers(s: Store, before: seq<Record>, log: seq<Record>)
    requires Undone(before, log) && WritesFit(log) && Restored(s, log)
    ensures Restored(s, before)
  {
    assert log[..|before|] == before;
    forall p: PageId | p < |s.disk| ensures PageRestored(s, before, p) {
      assert PageRestored(s, log, p);
      UndoKeepsCommitted(s.base, log, |before|, p);
    }
  }
}
