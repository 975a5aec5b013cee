/** The engine as a sequence of steps over a log, a device and a cache, any of which a power failure
    may interrupt; its restart procedure; and fuzzy checkpoints with log truncation. */
module Recovery {
  import opened Bytes
  import opened LogRecords
  import opened History
  import opened CrashSafety
  import opened Analysis
  import opened Runtime
  import opened Checkpoints
  import opened Sessions

  /** PowerLost: the power failed part way through. Rejected: the call changed nothing. */
  datatype Outcome = Done | PowerLost | Rejected

  /** `LogManager::append`: number the record and chain it to its transaction's previous one. */
  function Next(log: seq<Record>, txn: TxnId, kind: Kind): Record
  {
    Record(|log| + 1, LastLsn(log, txn), txn, kind)
  }

  /** One more than `max_txn_id` of the records the log still holds. */
  method AboveSurvivors(log: seq<Record>, truncated: nat) returns (next: TxnId)
    requires truncated <= |log|
    ensures next <= CHECKPOINT_TXN
    ensures forall i :: truncated <= i < |log| && log[i].txn != CHECKPOINT_TXN ==> log[i].txn < next
  {
    next := 0;
    for i := truncated to |log|
      invariant next <= CHECKPOINT_TXN
      invariant forall j :: truncated <= j < i && log[j].txn != CHECKPOINT_TXN ==> log[j].txn < next
    {
      if log[i].txn != CHECKPOINT_TXN && log[i].txn >= next { next := log[i].txn + 1; }
    }
  }

  /** A transaction's new state. */
  function Moved(v: Volatile, t: TxnId, state: TxnState): Volatile
    requires t in v.active
  {
    v.(active := v.active[t := Txn(v.active[t].begin, state)])
  }

  /** `r` undoes the newest update of `t` not yet undone, in the log and in the cache. */
  ghost predicate Compensates(s: Store, v: Volatile, r: Record, t: TxnId, s': Store, v': Volatile)
  {
    && r.kind.Clr? && r.txn == t && Admissible(s.base, s.log, r) && r.kind.page < |v.cache|
    && Appends(s, v, r, s', v') && v' == v.(cache := v'.cache, dirty := v'.dirty)
  }

  lemma {:induction false} UndoneSome(log: seq<Record>, added: seq<Record>, log': seq<Record>, t: TxnId)
    requires log' == log + added && |added| <= 1 && (added != [] ==> added[0].txn == t && UndoRecord(added[0]))
    ensures UndoneOnly(log, log', t) && (LastLsn(log, t) > 0 ==> LastLsn(log', t) > 0)
  {
    if added == [] {
      assert log' == log;
    } else {
      assert Front(log') == log && Last(log') == added[0];
    }
  }

  lemma {:induction false} UndoBegins(log: seq<Record>, active: map<TxnId, Txn>, nextTxn: TxnId, t: TxnId)
    requires TxnsOk(log, active, nextTxn) && t in active && active[t].state.Growing?
    ensures StateOk(log, t, Undoing(LastLsn(log, t)))
  {
    assert TxnOk(log, active, t);
  }

  lemma {:induction false} CommitIsDurable(s: Store, t: TxnId, at: nat)
    requires at < s.durable <= |s.log| && s.log[at].txn == t && s.log[at].kind.Commit?
    ensures DurablyCommitted(s, t)
  {
    assert s.log[..s.durable][at] == s.log[at];
  }

  lemma {:induction false} RestIsPages(s: Store, v: Volatile, p: PageId)
    requires Running(s, v) && v.flight.Collecting? && p in v.flight.rest
    ensures p < |v.dirty|
  {
    Clauses(s, v);
    assert DptSoFar(s, v.dirty, v.flight.c, ToMap(v.flight.dpt), v.flight.rest, p);
  }

  lemma {:induction false} NamerIsGrowing(s: Store, v: Volatile)
    requires Running(s, v) && v.flight.Opened?
    ensures Grows(v.active, v.flight.t) && 0 < |v.cache| == |v.dirty| && v.flight.c < Pow256(CHECKPOINT_LEN)
  {
    Clauses(s, v);
    assert OnlyNames(v.active, v.flight, v.flight.t);
  }

  lemma {:induction false} NamerIsActive(s: Store, v: Volatile)
    requires Running(s, v) && v.flight.Written?
    ensures v.flight.t != CHECKPOINT_TXN && 0 < v.flight.low
    ensures forall t :: t in v.active && t != v.flight.t ==> !v.active[t].state.Committing?
  {
    OrderOf(s, v);
    assert TxnOk(s.log, v.active, v.flight.t);
    forall t | t in v.active && t != v.flight.t ensures !v.active[t].state.Committing? { assert OnlyNames(v.active, v.flight, t); }
  }

  lemma {:induction false} NamedOnPage(s: Store, v: Volatile)
    requires Running(s, v) && v.flight.Written?
    ensures 0 < |v.cache| && CheckpointLsn(v.cache[HEADER_PAGE].data) == v.flight.c
  {
    Clauses(s, v);
    assert HeaderIs(s, |s.log|, v.flight.c);
    assert s.log[..|s.log|] == s.log;
  }

  lemma {:induction false} AddThenRemove(m: map<TxnId, Txn>, t: TxnId, x: Txn, x': Txn, m': map<TxnId, Txn>)
    requires t !in m && m' == m[t := x][t := x'] - {t}
    ensures m' == m
  {
  }

  class Engine {
    var s: Store     // device and log files
    var v: Volatile  // memory, lost in a crash

    /** A fresh device whose header names no checkpoint. */
    constructor (pages: seq<PageData>)
      requires |pages| > 0 && CheckpointLsn(pages[HEADER_PAGE]) == 0
      ensures s.base == pages && s.log == [] && |s.disk| == |pages| && Running(s, v) && Unlocked(v)
      ensures forall p :: 0 <= p < |pages| ==> s.disk[p].data == pages[p]
    {
      var images := seq(|pages|, i requires 0 <= i < |pages| => Page(0, pages[i]));
      s := Store(pages, images, [], 0, 0, 0);
      v := Volatile(images, seq(|pages|, _ => 0), map[], 0, {}, {}, Idle);
      new;
      RecoveredIsRunning(s, v);
    }

    method FlushLog(upTo: Lsn)
      requires Live(s, v) && upTo <= |s.log|
      modifies this`s
      ensures Live(s, v) && s == old(s).(durable := s.durable) && upTo <= s.durable && old(s.durable) <= s.durable
      ensures old(Running(s, v)) ==> Running(s, v)
    {
      if s.durable < upTo {
        SyncKeeps(s, v, |s.log|);
        s := s.(durable := |s.log|);
      }
    }

    /** `flush_pages_before` for one page: the log up to the page's LSN first, then the page. */
    method FlushPage(p: PageId)
      requires Live(s, v) && p < |s.disk| == |v.cache| == |v.dirty|
      modifies this
      ensures Live(s, v) && old(s.durable) <= s.durable
      ensures s == old(s).(durable := s.durable, disk := old(s.disk)[p := old(v.cache)[p]])
      ensures v == old(v).(dirty := old(v.dirty)[p := 0])
      ensures old(Running(s, v)) ==> Running(s, v)
    {
      PageLsnIsPast(s.base, s.log, p);
      FlushLog(v.cache[p].lsn);
      ghost var s0, v0 := s, v;
      s, v := s.(disk := s.disk[p := v.cache[p]]), v.(dirty := v.dirty[p := 0]);
      FlushKeeps(s0, v0, p, s, v);
    }

    method Begin() returns (t: TxnId)
      requires Running(s, v) && Unlocked(v) && v.nextTxn < CHECKPOINT_TXN
      modifies this
      ensures Running(s, v) && Unlocked(v) && t == old(v.nextTxn) && t !in old(v.active)
      ensures s == old(s).(log := old(s.log) + [Next(old(s.log), t, Kind.Begin)])
      ensures v == old(v).(active := old(v.active)[t := Txn(|old(s.log)| + 1, Growing)], nextTxn := t + 1)
    {
      t := v.nextTxn;
      ghost var s0, v0 := s, v;
      v := v.(active := v.active[t := Txn(|s.log| + 1, Growing)], nextTxn := t + 1);
      s := s.(log := s.log + [Next(s.log, t, Kind.Begin)]);
      BeginKeeps(s0, v0, Next(s0.log, t, Kind.Begin), s, v);
    }

    /** `PageWriteGuard::write`: log before- and after-image, then change the cached page. */
    method Write(t: TxnId, p: PageId, offset: nat, bytes: seq<byte>)
      requires Running(s, v) && Grows(v.active, t)
      requires p < |v.cache| && BODY_START <= offset && offset + |bytes| <= PAGE_SIZE
      requires var r := Next(s.log, t, Update(p, offset, v.cache[p].data[offset..offset + |bytes|], bytes));
               !TouchesHeader(r) && Strict(s.log, r)
      modifies this
      ensures Running(s, v)
      ensures s == old(s).(log := old(s.log) + [Next(old(s.log), t, Update(p, offset, old(v.cache)[p].data[offset..offset + |bytes|], bytes))])
      ensures v == old(v).(cache := old(v.cache)[p := Page(|s.log|, Overwrite(old(v.cache)[p].data, offset, bytes))], dirty := v.dirty)
    {
      Clauses(s, v);
      ghost var s0, v0 := s, v;
      var before := v.cache[p].data[offset..offset + |bytes|];
      var r := Next(s.log, t, Update(p, offset, before, bytes));
      s := s.(log := s.log + [r]);
      v := v.(cache := v.cache[p := Page(r.lsn, Overwrite(v.cache[p].data, offset, bytes))]);
      if v.dirty[p] == 0 { v := v.(dirty := v.dirty[p := r.lsn]); }
      assert Appends(s0, v0, r, s, v);
      WriteStep(s0, v0, r, s, v);
    }

    /** The record `new_page` logs for a page of the device. */
    method LogAlloc(t: TxnId, p: PageId)
      requires Running(s, v) && Grows(v.active, t) && p < |s.base|
      modifies this`s
      ensures Running(s, v) && s == old(s).(log := old(s.log) + [Next(old(s.log), t, AllocPage(p))])
    {
      Clauses(s, v);
      var r := Next(s.log, t, AllocPage(p));
      StillGrowing(s.log, v.active, v.nextTxn, r);
      GrowStep(s, v, r, s.(log := s.log + [r]), v);
      s := s.(log := s.log + [r]);
    }

    // ---- Committing: the caller holds the transaction manager from the first step to the last ----

    method LogCommit(t: TxnId)
      requires Running(s, v) && Grows(v.active, t)
      requires Unlocked(v) || (v.flight.Written? && v.flight.t == t)
      modifies this
      ensures Running(s, v) && s == old(s).(log := old(s.log) + [Next(old(s.log), t, Kind.Commit)])
      ensures v == old(v).(active := old(v.active)[t := Txn(old(v.active)[t].begin, Committing)])
    {
      ghost var s0, v0 := s, v;
      var r := Next(s.log, t, Kind.Commit);
      s, v := s.(log := s.log + [r]), v.(active := v.active[t := Txn(v.active[t].begin, Committing)]);
      CommitStep(s0, v0, r, s, v);
    }

    method EndCommit(t: TxnId)
      requires Running(s, v) && v.flight.Idle? && Commits(v.active, t) && DurablyCommitted(s, t)
      modifies this
      ensures Running(s, v) && s == old(s).(log := old(s.log) + [Next(old(s.log), t, Kind.End)])
      ensures v == old(v).(active := old(v.active) - {t})
    {
      Clauses(s, v);
      ghost var v0 := v;
      assert TxnOk(s.log, v.active, t);
      DurableCommitIsClosed(s, t);
      v := v.(active := v.active - {t});
      LeaveKeeps(s, v0, t, v);
      var r := Next(s.log, t, Kind.End);
      EndKeeps(s, v, r, s.(log := s.log + [r]));
      s := s.(log := s.log + [r]);
    }

    /** `TransactionManager::commit`: the commit record is durable before the transaction is over. Page
        writes, flushes and rollbacks of other sessions may come between its three steps. */
    method Commit(t: TxnId) returns (o: Outcome)
      requires Running(s, v) && Unlocked(v)
      modifies this
      ensures Running(s, v) && old(s.log) <= s.log && (o != PowerLost ==> Unlocked(v))
      ensures o == Rejected <==> !Grows(old(v.active), t)
      ensures o == Rejected ==> s == old(s) && v == old(v)
      ensures o == Done ==> DurablyCommitted(s, t) && v == old(v).(active := old(v.active) - {t})
    {
      if !Grows(v.active, t) { return Rejected; }
      LogCommit(t);
      if * { return PowerLost; }
      ghost var at := |s.log| - 1;
      assert s.log[at].txn == t && s.log[at].kind.Commit?;
      SyncLog();
      CommitIsDurable(s, t, at);
      ghost var mid := s;
      EndCommit(t);
      assert s.log[..s.durable] == mid.log[..mid.durable];
      return Done;
    }

    /** `LogManager::read_at`: nothing is left of a truncated record. */
    function ReadLog(lsn: Lsn): (r: seq<Record>)
      reads this
    {
      if s.truncated < lsn <= |s.log| then [s.log[lsn - 1]] else []
    }

    /** Append a compensation record and write its before-image to the cached page. */
    method Compensate(t: TxnId, cursor: Lsn) returns (ghost r: Record)
      requires Live(s, v) && t != CHECKPOINT_TXN
      requires 0 < cursor && AtCursor(s.log, t, cursor) && s.log[cursor - 1].kind.Update?
      modifies this
      ensures Live(s, v) && r.kind.Clr? && r.txn == t && Admissible(old(s.base), old(s.log), r) && r.kind.page < |old(v.cache)|
      ensures Appends(old(s), old(v), r, s, v) && v == old(v).(cache := v.cache, dirty := v.dirty)
      ensures AtCursor(s.log, t, old(s.log[cursor - 1].prev))
    {
      ghost var s0, v0 := s, v;
      var u := s.log[cursor - 1];
      var w := Next(s.log, t, Clr(u.kind.page, u.kind.offset, u.kind.before, u.prev));
      ClrIsAdmissible(s.base, s.log, t, cursor, w);
      var p := u.kind.page;
      s := s.(log := s.log + [w]);
      v := v.(cache := v.cache[p := Page(w.lsn, Overwrite(v.cache[p].data, u.kind.offset, u.kind.before))]);
      if v.dirty[p] == 0 { v := v.(dirty := v.dirty[p := w.lsn]); }
      ClrIsSafe(s0, v0, w, s, v);
      r := w;
    }

    /** Fetching a page may evict another one, which is flushed first. */
    method EvictAny()
      requires Live(s, v)
      modifies this
      ensures Live(s, v) && s == old(s).(durable := s.durable, disk := s.disk) && v == old(v).(dirty := v.dirty)
      ensures old(s.durable) <= s.durable
      ensures old(Running(s, v)) ==> Running(s, v)
    {
      var victim: PageId := *;
      if victim < |s.disk| { FlushPage(victim); }
    }

    /** The same while sessions run. */
    method Evict()
      requires Running(s, v)
      modifies this
      ensures Running(s, v) && s == old(s).(durable := s.durable, disk := s.disk) && v == old(v).(dirty := v.dirty)
    {
      Clauses(s, v);
      EvictAny();
    }

    /** `flush_log_all` while sessions run. */
    method SyncLog()
      requires Running(s, v)
      modifies this`s
      ensures Running(s, v) && s == old(s).(durable := |s.log|)
    {
      Clauses(s, v);
      FlushLog(|s.log|);
    }

    /** One turn of the loop of `undo_transaction`: compensate or skip the record at `cursor`, and say
        where to go next. */
    method UndoOne(t: TxnId, cursor: Lsn) returns (next: Lsn, ghost added: seq<Record>)
      requires Live(s, v) && t != CHECKPOINT_TXN && 0 < cursor && AtCursor(s.log, t, cursor)
      modifies this
      ensures Live(s, v) && s == old(s).(log := old(s.log) + added) && v == old(v).(cache := v.cache, dirty := v.dirty)
      ensures next < cursor && AtCursor(s.log, t, next)
      ensures added == [] ==> v == old(v)
      ensures added != [] ==> |added| == 1 && Compensates(old(s), old(v), added[0], t, s, v)
    {
      var found := ReadLog(cursor);
      added := [];
      if found == [] {
        PendingIsReadable(s, t, cursor);
        return 0, [];
      }
      var record := found[0];
      UndoTargetIsOwn(s.base, s.log, t, cursor);
      match record.kind {
        case Update(_, _, _, _) =>
          next := record.prev;
          ghost var r := Compensate(t, cursor);
          added := [r];
        case Clr(_, _, _, undoNext) =>
          next := undoNext;
        case Begin =>
          next := 0;
        case _ =>
          next := record.prev;
      }
    }

    /** `undo_transaction` during recovery: walk the chain backward, compensating every update not yet
        compensated, then close the transaction. */
    method UndoTransaction(t: TxnId, from: Lsn) returns (o: Outcome)
      requires Live(s, v) && t != CHECKPOINT_TXN && !Committed(s.log, t) && from == LastLsn(s.log, t) && from > 0
      modifies this
      ensures CrashSafe(s) && UndoneOnly(old(s.log), s.log, t) && o != Rejected
      ensures s.base == old(s.base) && old(s.durable) <= s.durable && v == old(v).(cache := v.cache, dirty := v.dirty)
      ensures o == Done ==> Live(s, v) && Closed(s.log, t)
    {
      var cursor: Lsn := from;
      while cursor != 0
        invariant Live(s, v) && AtCursor(s.log, t, cursor)
        invariant UndoneOnly(old(s.log), s.log, t) && LastLsn(s.log, t) > 0
        invariant s.base == old(s.base) && old(s.durable) <= s.durable && v == old(v).(cache := v.cache, dirty := v.dirty)
        decreases cursor
      {
        if * { return PowerLost; }
        EvictAny();
        ghost var before := s.log;
        ghost var added;
        cursor, added := UndoOne(t, cursor);
        UndoneSome(before, added, s.log, t);
        UndoneMore(old(s.log), before, s.log, t);
      }
      ghost var before := s.log;
      o := CloseUndone(t);
      UndoneMore(old(s.log), before, s.log, t);
    }

    /** The Abort and End that close an undone transaction. */
    method CloseUndone(t: TxnId) returns (o: Outcome)
      requires Live(s, v) && t != CHECKPOINT_TXN && !Committed(s.log, t) && Pending(s.log, t) == [] && LastLsn(s.log, t) > 0
      modifies this`s
      ensures CrashSafe(s) && UndoneOnly(old(s.log), s.log, t) && o != Rejected && s == old(s).(log := s.log)
      ensures o == Done ==> Live(s, v) && Closed(s.log, t)
    {
      LogEnd(t, Kind.Abort);
      if * { return PowerLost; }
      ghost var mid := s.log;
      LogEnd(t, Kind.End);
      UndoneMore(old(s.log), mid, s.log, t);
      return Done;
    }

    method LogEnd(t: TxnId, kind: Kind)
      requires Live(s, v) && t != CHECKPOINT_TXN && !Committed(s.log, t) && Pending(s.log, t) == [] && LastLsn(s.log, t) > 0
      requires kind == Kind.Abort || (kind == Kind.End && !Open(s.log, t))
      modifies this`s
      ensures Live(s, v) && s == old(s).(log := s.log) && UndoneOnly(old(s.log), s.log, t)
      ensures !Committed(s.log, t) && Pending(s.log, t) == [] && LastLsn(s.log, t) > 0 && !Open(s.log, t)
    {
      var r := Next(s.log, t, kind);
      ghost var s0 := s;
      s := s.(log := s.log + [r]);
      CloseIsSafe(s0, v, r, s, v);
      UndoneOne(s0.log, r);
    }

    // ---- Rolling back while others run ----

    /** `begin_abort`, under the transaction manager. */
    method BeginAbort(t: TxnId) returns (o: Outcome)
      requires Running(s, v) && Unlocked(v)
      modifies this`v
      ensures Running(s, v) && Unlocked(v) && o != PowerLost
      ensures o == Rejected <==> !Grows(old(v.active), t)
      ensures v == if o == Rejected then old(v) else Moved(old(v), t, Undoing(LastLsn(s.log, t)))
    {
      Clauses(s, v);
      if !Grows(v.active, t) { return Rejected; }
      ghost var v0 := v;
      v := Moved(v, t, Undoing(LastLsn(s.log, t)));
      UndoBegins(s.log, v0.active, v0.nextTxn, t);
      ChangeKeeps(s, v0, t, v.active[t], v);
      return Done;
    }

    /** One turn of `PendingAbort::undo`, which holds no lock: commits, writes, flushes and every step of
        a checkpoint may come between two turns. */
    method UndoStep(t: TxnId)
      requires Running(s, v) && t in v.active && v.active[t].state.Undoing? && v.active[t].state.cursor > 0
      modifies this
      ensures Running(s, v) && s == old(s).(log := s.log) && UndoneOnly(old(s.log), s.log, t)
      ensures v == old(v).(cache := v.cache, dirty := v.dirty, active := v.active)
      ensures t in v.active && v.active == Moved(old(v), t, v.active[t].state).active
      ensures v.active[t].state.Undoing? && v.active[t].state.cursor < old(v.active[t].state.cursor)
    {
      Clauses(s, v);
      ghost var s0, v0 := s, v;
      assert TxnOk(s.log, v.active, t);
      var next, added := UndoOne(t, v.active[t].state.cursor);
      UndoneSome(s0.log, added, s.log, t);
      v := Moved(v, t, Undoing(next));
      if added == [] {
        assert s == s0;
        ChangeKeeps(s0, v0, t, v.active[t], v);
      } else {
        CompensateKeeps(s0, v0, added[0], v.active[t], s, v);
      }
    }

    /** Its Abort record, once nothing is left to compensate. */
    method LogRolledBack(t: TxnId)
      requires Running(s, v) && t in v.active && v.active[t].state == Undoing(0)
      modifies this
      ensures Running(s, v) && s == old(s).(log := old(s.log) + [Next(old(s.log), t, Kind.Abort)]) && v == Moved(old(v), t, RolledBack)
    {
      ghost var s0, v0 := s, v;
      s, v := s.(log := s.log + [Next(s.log, t, Kind.Abort)]), Moved(v, t, RolledBack);
      CloseKeeps(s0, v0, Next(s0.log, t, Kind.Abort), v.active[t], s, v);
    }

    /** Its End record. */
    method LogEnded(t: TxnId)
      requires Running(s, v) && t in v.active && v.active[t].state == RolledBack
      modifies this
      ensures Running(s, v) && s == old(s).(log := old(s.log) + [Next(old(s.log), t, Kind.End)]) && v == Moved(old(v), t, Ended)
    {
      ghost var s0, v0 := s, v;
      s, v := s.(log := s.log + [Next(s.log, t, Kind.End)]), Moved(v, t, Ended);
      CloseKeeps(s0, v0, Next(s0.log, t, Kind.End), v.active[t], s, v);
    }

    /** `finish_abort`, under the transaction manager again. */
    method FinishAbort(t: TxnId)
      requires Running(s, v) && Unlocked(v) && t in v.active && v.active[t].state == Ended
      modifies this`v
      ensures Running(s, v) && Unlocked(v) && Closed(s.log, t) && v == old(v).(active := old(v.active) - {t})
    {
      Clauses(s, v);
      ghost var v0 := v;
      assert TxnOk(s.log, v.active, t);
      v := v.(active := v.active - {t});
      LeaveKeeps(s, v0, t, v);
    }

    /** `TransactionManager::abort`: the steps above in order, with evictions in between. */
    method Abort(t: TxnId) returns (o: Outcome)
      requires Running(s, v) && Unlocked(v)
      modifies this
      ensures Running(s, v) && Unlocked(v)
      ensures o == Rejected <==> !Grows(old(v.active), t)
      ensures o == Rejected ==> s == old(s) && v == old(v)
      ensures o != Rejected ==> UndoneOnly(old(s.log), s.log, t)
      ensures o == Done ==> Closed(s.log, t) && v.active == old(v.active) - {t}
    {
      o := BeginAbort(t);
      if o == Rejected { return; }
      while v.active[t].state != Undoing(0)
        invariant Running(s, v) && Unlocked(v) && t in v.active && v.active[t].state.Undoing?
        invariant UndoneOnly(old(s.log), s.log, t) && v.active == Moved(old(v), t, v.active[t].state).active
        decreases v.active[t].state.cursor
      {
        if * { return PowerLost; }
        ghost var before := s.log;
        Evict();
        UndoStep(t);
        UndoneMore(old(s.log), before, s.log, t);
      }
      o := CloseAborted(t, old(s.log));
    }

    method CloseAborted(t: TxnId, ghost log: seq<Record>) returns (o: Outcome)
      requires Running(s, v) && Unlocked(v) && t in v.active && v.active[t].state == Undoing(0) && UndoneOnly(log, s.log, t)
      modifies this
      ensures Running(s, v) && Unlocked(v) && o != Rejected && UndoneOnly(log, s.log, t)
      ensures o == Done ==> Closed(s.log, t) && v.active == old(v.active) - {t}
    {
      UndoneOne(s.log, Next(s.log, t, Kind.Abort));
      UndoneMore(log, s.log, s.log + [Next(s.log, t, Kind.Abort)], t);
      LogRolledBack(t);
      if * { return PowerLost; }
      UndoneOne(s.log, Next(s.log, t, Kind.End));
      UndoneMore(log, s.log, s.log + [Next(s.log, t, Kind.End)], t);
      LogEnded(t);
      FinishAbort(t);
      return Done;
    }

    /** Power failure: memory is gone, and any part of the unsynced log tail may be. */
    method Crash()
      requires CrashSafe(s)
      modifies this
      ensures CrashSafe(s) && Restarted(s, v)
      ensures s == old(s).(log := s.log, durable := |s.log|)
      ensures old(s.durable) <= |s.log| && s.log <= old(s.log)
    {
      var n: nat :| s.durable <= n <= |s.log|;
      CrashCutSafe(s, n);
      s := s.(log := s.log[..n]);
      SyncSafe(s, n);
      s := s.(durable := n);
      v := Volatile(s.disk, seq(|s.disk|, _ => 0), map[], 0, {}, {}, Idle);
    }

    /** A page redo or undo fetches may push another one out of the cache. */
    method EvictDuringRedo(ghost n: nat)
      requires Redone(s, v, n)
      modifies this
      ensures Redone(s, v, n) && s == old(s).(disk := s.disk) && v == old(v).(dirty := v.dirty)
    {
      var victim: PageId := *;
      if 0 <= victim < |s.disk| {
        ghost var s0, v0 := s, v;
        s, v := s.(disk := s.disk[victim := v.cache[victim]]), v.(dirty := v.dirty[victim := 0]);
        RedoEvict(s0, v0, n, victim, s, v);
      }
    }

    /** Repeat history from `start`: reapply every write a cached page has not seen. */
    method Redo(start: Lsn) returns (o: Outcome)
      requires s.truncated < start && Redoing(s, v, start - 1) && Numbered(s.log)
      modifies this
      ensures CrashSafe(s) && s == old(s).(disk := s.disk) && v == old(v).(cache := v.cache, dirty := v.dirty)
      ensures o != Rejected && (o == Done ==> Live(s, v))
    {
      var n := start - 1;
      while n < |s.log|
        invariant start - 1 <= n && Redoing(s, v, n)
        invariant s == old(s).(disk := s.disk) && v == old(v).(cache := v.cache, dirty := v.dirty)
      {
        o := RedoTurn(n);
        if o == PowerLost { return; }
        n := n + 1;
      }
      FinishRedo(n);
      return Done;
    }

    method FinishRedo(n: nat)
      requires Redoing(s, v, n) && |s.log| <= n
      ensures Live(s, v)
    {
      assert Redone(s, v, n);
      RedoComplete(s, v);
    }

    method RedoTurn(n: nat) returns (o: Outcome)
      requires Redoing(s, v, n) && s.truncated <= n < |s.log| && Numbered(s.log)
      modifies this
      ensures s == old(s).(disk := s.disk) && v == old(v).(cache := v.cache, dirty := v.dirty) && o != Rejected
      ensures if o == Done then Redoing(s, v, n + 1) else CrashSafe(s)
    {
      assert Redone(s, v, n);
      if * { return PowerLost; }
      RedoOne(n);
      Reached(s, v, n + 1);
      return Done;
    }

    method RedoOne(n: nat)
      requires Redone(s, v, n) && s.truncated <= n < |s.log| && Numbered(s.log)
      modifies this
      ensures Redone(s, v, n + 1) && s == old(s).(disk := s.disk) && v == old(v).(cache := v.cache, dirty := v.dirty)
    {
      EvictDuringRedo(n);
      var r := s.log[n];
      if NeedsRedo(v.cache, r) {
        ghost var v0 := v;
        var p := r.kind.page;
        v := v.(cache := v.cache[p := Page(r.lsn, Overwrite(v.cache[p].data, r.kind.offset, r.kind.after))]);
        if v.dirty[p] == 0 { v := v.(dirty := v.dirty[p := r.lsn]); }
        RedoStep(s, v0, n, v);
      } else {
        RedoSkip(s, v, n);
      }
    }

    /** Undo every loser, in any order. */
    method UndoLosers(losers: map<TxnId, Lsn>) returns (o: Outcome)
      requires Live(s, v) && forall t :: LeftToUndo(s.log, losers, t)
      modifies this
      ensures CrashSafe(s) && Undone(old(s.log), s.log) && o != Rejected
      ensures s.base == old(s.base) && old(s.durable) <= s.durable && v == old(v).(cache := v.cache, dirty := v.dirty)
      ensures o == Done ==> Live(s, v) && forall t :: Finished(s.log, t)
    {
      var left := losers;
      while left != map[]
        invariant Live(s, v) && forall t :: LeftToUndo(s.log, left, t)
        invariant Undone(old(s.log), s.log) && s.base == old(s.base) && old(s.durable) <= s.durable && v == old(v).(cache := v.cache, dirty := v.dirty)
        decreases |left|
      {
        var t :| t in left;
        ghost var before := s.log;
        o := UndoLoser(left, t);
        UndoneAlso(old(s.log), before, s.log, t);
        if o == PowerLost { return; }
        left := left - {t};
      }
      forall t ensures Finished(s.log, t) { assert LeftToUndo(s.log, left, t); }
      return Done;
    }

    method UndoLoser(left: map<TxnId, Lsn>, t: TxnId) returns (o: Outcome)
      requires Live(s, v) && t in left && forall u :: LeftToUndo(s.log, left, u)
      modifies this
      ensures CrashSafe(s) && UndoneOnly(old(s.log), s.log, t) && o != Rejected
      ensures s.base == old(s.base) && old(s.durable) <= s.durable && v == old(v).(cache := v.cache, dirty := v.dirty)
      ensures o == Done ==> Live(s, v) && forall u :: LeftToUndo(s.log, left - {t}, u)
    {
      assert LeftToUndo(s.log, left, t);
      o := UndoTransaction(t, left[t]);
      if o == Done { OneLess(s.base, old(s.log), s.log, left, t); }
    }

    /** `flush_log_all`, `flush_all`: after it the disk is what the cache is. */
    method FlushAll() returns (o: Outcome)
      requires Live(s, v)
      modifies this
      ensures CrashSafe(s) && o != Rejected && old(s.durable) <= s.durable
      ensures s == old(s).(disk := s.disk, durable := s.durable) && v == old(v).(dirty := v.dirty)
      ensures o == Done ==> Live(s, v) && s.durable == |s.log| && s.disk == v.cache
    {
      FlushLog(|s.log|);
      var p := 0;
      while p < |s.disk|
        invariant Live(s, v) && s.durable == |s.log| && p <= |s.disk|
        invariant s == old(s).(disk := s.disk, durable := s.durable) && v == old(v).(dirty := v.dirty)
        invariant |s.disk| == |v.cache| && forall q :: 0 <= q < p ==> s.disk[q] == v.cache[q]
      {
        if * { return PowerLost; }
        if v.dirty[p] != 0 {
          FlushPage(p);
        } else {
          assert DirtyPageOk(s, v.cache, v.dirty, p);
        }
        p := p + 1;
      }
      return Done;
    }

    method NextTxnId() returns (next: TxnId)
      requires CrashSafe(s)
      ensures next <= CHECKPOINT_TXN
      ensures forall i :: 0 <= i < |s.log| && s.log[i].txn != CHECKPOINT_TXN ==> s.log[i].txn < next
    {
      next := AboveSurvivors(s.log, s.truncated);
      SurvivingIdsSuffice(s, next);
    }

    /** `recover`: analysis from the checkpoint the header names, redo, undo of the losers, flush. */
    method Recover() returns (o: Outcome)
      requires CrashSafe(s) && Restarted(s, v)
      modifies this
      ensures CrashSafe(s) && Undone(old(s.log), s.log) && o != Rejected && old(s.durable) <= s.durable
      ensures o == Done ==> Running(s, v) && Unlocked(v) && v.active == map[] && Restored(s, old(s.log))
    {
      var losers, start := ReadLogForRestart();
      o := Redo(start);
      if o == PowerLost { return; }
      o := UndoAndFlush(losers);
    }

    /** Analysis from the checkpoint the header names: whom to undo, and where redo starts. */
    method ReadLogForRestart() returns (losers: map<TxnId, Lsn>, start: Lsn)
      requires CrashSafe(s) && Restarted(s, v)
      ensures s.truncated < start && Redoing(s, v, start - 1) && Numbered(s.log)
      ensures forall t :: LeftToUndo(s.log, losers, t)
    {
      var c := CheckpointLsn(s.disk[HEADER_PAGE].data);
      RestartHeader(s);
      LosersFound(s, c);
      var att, dpt := Analyze(s.log, c);
      start := RedoStart(dpt, |s.log| + 1);
      RedoCanStart(s, v, c, start);
      losers := Losers(att);
    }

    method UndoAndFlush(losers: map<TxnId, Lsn>) returns (o: Outcome)
      requires Live(s, v) && v.active == map[] && v.bounds == {} && v.ready == {} && v.flight == Idle && forall t :: LeftToUndo(s.log, losers, t)
      modifies this
      ensures CrashSafe(s) && Undone(old(s.log), s.log) && o != Rejected && old(s.durable) <= s.durable
      ensures o == Done ==> Running(s, v) && Unlocked(v) && v.active == map[] && Restored(s, old(s.log))
    {
      o := UndoLosers(losers);
      if o == PowerLost { return; }
      o := FlushAll();
      if o == PowerLost { return; }
      FinishedIsRestored(s, v, old(s.log));
      var next := NextTxnId();
      v := v.(nextTxn := next);
      RecoveredIsRunning(s, v);
    }

    /** Recovery interrupted any number of times, then completed, restores what one recovery would have. */
    method RecoverRepeatedly(attempts: nat) returns (o: Outcome)
      requires CrashSafe(s) && Restarted(s, v)
      modifies this
      ensures CrashSafe(s) && Undone(old(s.log), s.log) && o != Rejected
      ensures o == Done ==> Running(s, v) && Restored(s, old(s.log))
    {
      o := Recover();
      var k := 0;
      while o == PowerLost && k < attempts
        invariant CrashSafe(s) && Undone(old(s.log), s.log) && o != Rejected && |old(s.log)| <= s.durable
        invariant o == Done ==> Running(s, v) && Restored(s, old(s.log))
      {
        ghost var all := s.log;
        Crash();
        UndoneCut(old(s.log), all, s.log);
        ghost var log := s.log;
        o := Recover();
        UndoneThen(old(s.log), log, s.log);
        if o == Done { RestoredTransfers(s, old(s.log), log); }
        k := k + 1;
      }
    }

    // ---- Fuzzy checkpoints ----

    /** The first record of `write_checkpoint_record`, which holds the transaction manager from here to
        `FinishNaming`. Page writes, flushes, rollbacks and truncations may come between any two steps. */
    method BeginCheckpoint() returns (c: Lsn)
      requires Running(s, v) && Unlocked(v) && |s.log| + 1 < Pow256(CHECKPOINT_LEN)
      modifies this
      ensures Running(s, v) && s == old(s).(log := old(s.log) + [Next(old(s.log), CHECKPOINT_TXN, CheckpointBegin)])
      ensures c == |s.log| && v == old(v).(flight := Collecting(c, [], v.active.Keys, [], PagesBelow(|v.dirty|)))
    {
      ghost var s0, v0 := s, v;
      var r := Next(s.log, CHECKPOINT_TXN, CheckpointBegin);
      c := r.lsn;
      s, v := s.(log := s.log + [r]), v.(flight := Collecting(c, [], v.active.Keys, [], PagesBelow(|v.dirty|)));
      CheckpointBegins(s0, v0, r, s, v);
    }

    /** `active_snapshot`, for one transaction. */
    method CollectActive(t: TxnId)
      requires Running(s, v) && v.flight.Collecting? && t in v.flight.left
      modifies this`v
      ensures Running(s, v)
      ensures v == old(v).(flight := old(v.flight).(att := old(v.flight.att) + [(t, LastLsn(s.log, t))], left := old(v.flight.left) - {t}))
    {
      ghost var v0 := v;
      v := v.(flight := v.flight.(att := v.flight.att + [(t, LastLsn(s.log, t))], left := v.flight.left - {t}));
      ActiveIsRead(s, v0, t, v);
    }

    /** `dirty_page_table`, for one frame. */
    method CollectDirty(p: PageId)
      requires Running(s, v) && v.flight.Collecting? && v.flight.left == {} && p in v.flight.rest
      modifies this`v
      ensures Running(s, v) && p < |v.dirty|
      ensures v == old(v).(flight := old(v.flight).(dpt := WithDirty(old(v.flight.dpt), p, v.dirty[p]), rest := old(v.flight.rest) - {p}))
    {
      ghost var v0 := v;
      RestIsPages(s, v, p);
      v := v.(flight := v.flight.(dpt := WithDirty(v.flight.dpt, p, v.dirty[p]), rest := v.flight.rest - {p}));
      DirtyIsRead(s, v0, p, v);
    }

    /** The CheckpointEnd record with what was collected. */
    method LogSnapshot()
      requires Running(s, v) && v.flight.Collecting? && v.flight.left == {} && v.flight.rest == {}
      modifies this
      ensures Running(s, v) && v.flight.Logged? && v.flight.c == old(v.flight.c) && v == old(v).(flight := v.flight)
      ensures s == old(s).(log := old(s.log) + [Next(old(s.log), CHECKPOINT_TXN, CheckpointEnd(old(v.flight.att), old(v.flight.dpt)))])
    {
      Clauses(s, v);
      ghost var s0, v0 := s, v;
      var low := Lowest(v.flight.dpt, v.flight.c);
      LowestIsLow(s, v.dirty, v.bounds, v.flight, low);
      var r := Next(s.log, CHECKPOINT_TXN, CheckpointEnd(v.flight.att, v.flight.dpt));
      s, v := s.(log := s.log + [r]), v.(flight := Logged(v.flight.c, low));
      SnapshotKeeps(s0, v0, r, low, s, v);
    }

    /** `flush_log_all`. */
    method SyncSnapshot()
      requires Running(s, v) && v.flight.Logged?
      modifies this
      ensures Running(s, v) && s == old(s).(durable := |s.log|) && v == old(v).(flight := Synced(old(v.flight.c), old(v.flight.low)))
      ensures Sized(s) && GoodCheckpoint(s, v.flight.c)
    {
      ghost var s0, v0 := s, v;
      s, v := s.(durable := |s.log|), v.(flight := Synced(v.flight.c, v.flight.low));
      SyncedKeeps(s0, v0, s, v);
      Clauses(s, v);
    }

    /** The transaction that will name the checkpoint in the header. */
    method BeginNaming() returns (t: TxnId)
      requires Running(s, v) && v.flight.Synced? && v.nextTxn < CHECKPOINT_TXN
      modifies this
      ensures Running(s, v) && t == old(v.nextTxn) && t !in old(v.active)
      ensures s == old(s).(log := old(s.log) + [Next(old(s.log), t, Kind.Begin)])
      ensures v == old(v).(active := old(v.active)[t := Txn(|old(s.log)| + 1, Growing)], nextTxn := t + 1,
                           flight := Opened(old(v.flight.c), old(v.flight.low), t))
    {
      t := v.nextTxn;
      ghost var s0, v0 := s, v;
      v := v.(active := v.active[t := Txn(|s.log| + 1, Growing)], nextTxn := t + 1, flight := Opened(v.flight.c, v.flight.low, t));
      s := s.(log := s.log + [Next(s.log, t, Kind.Begin)]);
      BeginKeeps(s0, v0, Next(s0.log, t, Kind.Begin), s, v);
    }

    /** `set_last_checkpoint_lsn`. */
    method WriteHeader()
      requires Running(s, v) && v.flight.Opened?
      modifies this
      ensures Running(s, v) && |s.log| == |old(s.log)| + 1 && old(s.log) <= s.log
      ensures v == old(v).(cache := v.cache, dirty := v.dirty, flight := Written(old(v.flight.c), old(v.flight.low), old(v.flight.t), |old(s.log)|))
      ensures s == old(s).(log := s.log) && 0 < |v.cache| && CheckpointLsn(v.cache[HEADER_PAGE].data) == old(v.flight.c)
    {
      ghost var s0, v0 := s, v;
      NamerIsGrowing(s, v);
      var w := HeaderWrite(s.log, v.cache, v.flight.t, v.flight.c);
      var f := Written(v.flight.c, v.flight.low, v.flight.t, |s.log|);
      s, v := s.(log := s.log + [w]), v.(cache := Stamped(v.cache, w), dirty := Dirtied(v.dirty, w), flight := f);
      HeaderIsWritten(s0, v0, w, s, v);
      NamedInCache(v0.cache, s0.log, v0.flight.t, v0.flight.c);
    }

    /** The last steps of the header transaction's commit, once its Commit record is durable, and the bound
        below which the log is no longer needed. */
    method FinishNaming() returns (bound: Lsn)
      requires Running(s, v) && v.flight.Written? && Commits(v.active, v.flight.t) && DurablyCommitted(s, v.flight.t)
      modifies this
      ensures Running(s, v) && Unlocked(v) && s == old(s).(log := old(s.log) + [Next(old(s.log), old(v.flight.t), Kind.End)])
      ensures v == old(v).(active := old(v.active) - {old(v.flight.t)}, bounds := old(v.bounds) + {bound}, flight := Idle)
      ensures 0 < |v.cache| && CheckpointLsn(v.cache[HEADER_PAGE].data) == old(v.flight.c)
    {
      Clauses(s, v);
      ghost var v0 := v;
      var t := v.flight.t;
      NamerIsActive(s, v);
      NamedOnPage(s, v);
      BeginsArePositive(s.log, v.active, v.nextTxn);
      bound := EarliestBegin(v.active - {t}, v.flight.low);
      v := v.(active := v.active - {t}, bounds := v.bounds + {bound}, flight := Idle);
      NameKeeps(s, v0, bound, v);
      DurableCommitIsClosed(s, t);
      var r := Next(s.log, t, Kind.End);
      EndKeeps(s, v, r, s.(log := s.log + [r]));
      s := s.(log := s.log + [r]);
    }

    /** `write_checkpoint_record`: the steps above in order, with evictions in between. */
    method WriteCheckpointRecord() returns (o: Outcome, bound: Lsn)
      requires Running(s, v) && Unlocked(v) && |s.log| + 1 < Pow256(CHECKPOINT_LEN) && v.nextTxn < CHECKPOINT_TXN
      modifies this
      ensures Running(s, v) && o != Rejected && old(s.log) <= s.log
      ensures o == Done ==> Unlocked(v) && bound in v.bounds && v.active == old(v.active)
      ensures o == Done ==> 0 < |v.cache| && CheckpointLsn(v.cache[HEADER_PAGE].data) == |old(s.log)| + 1
    {
      var c := BeginCheckpoint();
      CollectAll(c);
      Evict();
      LogSnapshot();
      if * { return PowerLost, 0; }
      Evict();
      SyncSnapshot();
      if * { return PowerLost, 0; }
      o, bound := NameCheckpoint();
    }

    method CollectAll(c: Lsn)
      requires Running(s, v) && v.flight.Collecting? && v.flight.c == c
      modifies this
      ensures Running(s, v) && s == old(s).(durable := s.durable, disk := s.disk)
      ensures v == old(v).(dirty := v.dirty, flight := v.flight)
      ensures v.flight.Collecting? && v.flight.c == c && v.flight.left == {} && v.flight.rest == {}
    {
      while v.flight.left != {}
        invariant Running(s, v) && v.flight.Collecting? && v.flight.c == c
        invariant s == old(s).(durable := s.durable, disk := s.disk) && v == old(v).(dirty := v.dirty, flight := v.flight)
        decreases |v.flight.left|
      {
        Evict();
        var t :| t in v.flight.left;
        CollectActive(t);
      }
      while v.flight.rest != {}
        invariant Running(s, v) && v.flight.Collecting? && v.flight.c == c && v.flight.left == {}
        invariant s == old(s).(durable := s.durable, disk := s.disk) && v == old(v).(dirty := v.dirty, flight := v.flight)
        decreases |v.flight.rest|
      {
        Evict();
        var p :| p in v.flight.rest;
        CollectDirty(p);
      }
    }

    method NameCheckpoint() returns (o: Outcome, bound: Lsn)
      requires Running(s, v) && v.flight.Synced? && v.nextTxn < CHECKPOINT_TXN
      modifies this
      ensures Running(s, v) && o != Rejected && old(s.log) <= s.log
      ensures o == Done ==> Unlocked(v) && bound in v.bounds && v.active == old(v.active)
      ensures o == Done ==> 0 < |v.cache| && CheckpointLsn(v.cache[HEADER_PAGE].data) == old(v.flight.c)
    {
      var t := BeginNaming();
      ghost var active := v.active;
      Evict();
      WriteHeader();
      if * { return PowerLost, 0; }
      Evict();
      LogCommit(t);
      ghost var at := |s.log| - 1;
      assert s.log[at].txn == t && s.log[at].kind.Commit?;
      if * { return PowerLost, 0; }
      SyncLog();
      CommitIsDurable(s, t, at);
      bound := FinishNaming();
      AddThenRemove(old(v.active), t, active[t], Txn(active[t].begin, Committing), v.active);
      return Done, bound;
    }

    /** `finish_checkpoint`: page 0 goes to disk first. */
    method FlushHeader(bound: Lsn)
      requires Running(s, v) && bound in v.bounds
      modifies this
      ensures Running(s, v) && s == old(s).(durable := s.durable, disk := s.disk) && old(s.durable) <= s.durable
      ensures 0 < |s.disk| == |v.cache| && s.disk[HEADER_PAGE] == v.cache[HEADER_PAGE]
      ensures v == old(v).(dirty := v.dirty, ready := old(v.ready) + {bound})
    {
      Clauses(s, v);
      FlushPage(HEADER_PAGE);
      ghost var v0 := v;
      v := v.(ready := v.ready + {bound});
      ReadyKeeps(s, v0, bound, v);
    }

    /** Then whole segments below the bound may be dropped, whatever has happened since. */
    method Truncate(bound: Lsn)
      requires Running(s, v) && bound in v.ready
      modifies this
      ensures Running(s, v) && s == old(s).(truncated := s.truncated, floor := s.floor)
      ensures old(s.truncated) <= s.truncated && (s.truncated < bound || s.truncated == old(s.truncated))
      ensures v == old(v).(bounds := old(v.bounds) - {bound}, ready := old(v.ready) - {bound})
    {
      Clauses(s, v);
      var cut: nat :| s.truncated <= cut && (cut < bound || cut == s.truncated);
      ghost var s0, v0 := s, v;
      if cut < bound {
        s := s.(truncated := cut, floor := Floor(s, v.flight));
        assert Sized(s0);
        TruncateKeeps(s0, v, bound, s);
      }
      v := v.(bounds := v.bounds - {bound}, ready := v.ready - {bound});
      DropBoundKeeps(s, v0, bound, v);
    }

    /** `finish_checkpoint` as a whole. */
    method FinishCheckpoint(bound: Lsn) returns (o: Outcome)
      requires Running(s, v) && bound in v.bounds
      modifies this
      ensures Running(s, v) && o != Rejected
      ensures s == old(s).(disk := s.disk, durable := s.durable, truncated := s.truncated, floor := s.floor)
      ensures s.truncated < bound || s.truncated == old(s.truncated)
      ensures o == Done ==> v.bounds == old(v.bounds) - {bound} && v.flight == old(v.flight)
    {
      FlushHeader(bound);
      if * { return PowerLost; }
      Evict();
      Truncate(bound);
      return Done;
    }
  }
}
