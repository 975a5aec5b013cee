/** What holds whenever sessions, rollbacks and a checkpoint run side by side, and that each of their
    steps keeps it, whatever the others are in the middle of. */
module Sessions {
  import opened Bytes
  import opened LogRecords
  import opened History
  import opened CrashSafety
  import opened Analysis
  import opened Runtime
  import opened Checkpoints

  ghost predicate BoundKept(s: Store, v: Volatile, b: Lsn)
    requires Sized(s)
  {
    && (b in v.bounds ==> BoundOk(s, v.dirty, b))
    && (b in v.ready ==> b in v.bounds && ReadyOk(s, b))
  }

  /** Every transaction, and the checkpoint in flight, is where its state says. */
  ghost predicate InOrder(s: Store, v: Volatile)
    requires Sized(s)
  {
    && TxnsOk(s.log, v.active, v.nextTxn)
    && (forall t :: CommitDurable(s, v.active, t))
    && |v.dirty| == |s.disk| && FlightLog(s, v.dirty, v.bounds, v.flight)
    && FlightTxns(s, v.active, v.nextTxn, v.flight)
  }

  datatype Clause = Memory | Header | Bounds | Order

  ghost predicate Holds(s: Store, v: Volatile, clause: Clause)
  {
    match clause
    case Memory => Live(s, v)
    case Header => Sized(s) && HeaderSettled(s, Unsettled(v.flight))
    case Bounds => Sized(s) && forall b :: BoundKept(s, v, b)
    case Order => Sized(s) && InOrder(s, v)
  }

  /** Transactions may run, and a checkpoint may be anywhere in its course. */
  ghost predicate Running(s: Store, v: Volatile)
  {
    forall clause :: Holds(s, v, clause)
  }

  lemma {:induction false} Clauses(s: Store, v: Volatile)
    requires Running(s, v)
    ensures Live(s, v) && HeaderSettled(s, Unsettled(v.flight)) && (forall b :: BoundKept(s, v, b)) && InOrder(s, v)
  {
    assert Holds(s, v, Memory) && Holds(s, v, Header) && Holds(s, v, Bounds) && Holds(s, v, Order);
  }

  lemma {:induction false} OrderOf(s: Store, v: Volatile)
    requires Running(s, v)
    ensures Sized(s) && WellFormed(s.base, s.log) && InOrder(s, v)
  {
    assert Holds(s, v, Memory) && Holds(s, v, Order);
  }

  lemma {:induction false} RunsAgain(s: Store, v: Volatile)
    requires Live(s, v) && HeaderSettled(s, Unsettled(v.flight)) && (forall b :: BoundKept(s, v, b)) && InOrder(s, v)
    ensures Running(s, v)
  {
    forall clause ensures Holds(s, v, clause) {
      match clause
      case Memory => case Header => case Bounds => case Order =>
    }
  }

  // ---- Appending one record ----

  lemma {:induction false} BoundsAfterAppend(s: Store, v: Volatile, r: Record, s': Store, v': Volatile)
    requires Sized(s) && Appends(s, v, r, s', v') && Sized(s') && WellFormed(s'.base, s'.log) && r.lsn == |s.log| + 1
    requires !TouchesHeader(r) && |v.dirty| == |s.disk| && forall b :: BoundKept(s, v, b)
    ensures forall b :: BoundKept(s', v', b)
  {
    forall b ensures BoundKept(s', v', b) {
      assert BoundKept(s, v, b);
      if b in v.bounds { BoundAfterAppend(s, s', r, v.dirty, b); }
      if b in v.ready { ReadyAfterAppend(s, s', r, b); }
    }
  }

  /** A record that leaves the header alone keeps the engine running if it keeps the transactions and the
      checkpoint in flight in order. */
  lemma {:induction false} AppendKeeps(s: Store, v: Volatile, r: Record, s': Store, v': Volatile)
    requires Running(s, v) && Appends(s, v, r, s', v') && r.lsn == |s.log| + 1 && CrashSafe(s') && !TouchesHeader(r)
    requires Unsettled(v'.flight) == Unsettled(v.flight) && InOrder(s', v')
    ensures Running(s', v')
  {
    Clauses(s, v);
    LiveAppend(s, v, r, s', v');
    SettledAfterAppend(s, s', r, Unsettled(v.flight));
    BoundsAfterAppend(s, v, r, s', v');
  }

  lemma {:induction false} CommitsStay(s: Store, active: map<TxnId, Txn>, r: Record, s': Store, active': map<TxnId, Txn>)
    requires Sized(s) && s' == s.(log := s.log + [r]) && Sized(s') && forall t :: CommitDurable(s, active, t)
    requires r.kind.Commit? ==> Commits(active', r.txn)
    requires forall t :: Commits(active, t) ==> Commits(active', t)
    ensures forall t :: CommitDurable(s', active', t)
  {
    assert Front(s'.log) == s.log && s'.log[..s.durable] == s.log[..s.durable];
    forall t ensures CommitDurable(s', active', t) {
      assert CommitDurable(s, active, t);
      CommittedStep(s'.log, t);
    }
  }

  lemma {:induction false} CommitsStayOwn(s: Store, active: map<TxnId, Txn>, r: Record, s': Store, x: Txn, active': map<TxnId, Txn>)
    requires Sized(s) && s' == s.(log := s.log + [r]) && Sized(s') && forall t :: CommitDurable(s, active, t)
    requires !Commits(active, r.txn) && (r.kind.Commit? ==> x.state.Committing?) && active' == active[r.txn := x]
    ensures forall t :: CommitDurable(s', active', t)
  {
    CommitsStay(s, active, r, s', active');
  }

  /** A record that neither ends a checkpoint nor newly names one is safe to append. */
  lemma {:induction false} SafeAppend(s: Store, r: Record, s': Store)
    requires CrashSafe(s) && Admissible(s.base, s.log, r) && s' == s.(log := s.log + [r])
    requires !r.kind.CheckpointEnd? && !(r.kind.Update? && TouchesHeader(r))
    ensures CrashSafe(s')
  {
    AppendShape(s.base, s.log, r);
    AppendSafe(s, s', r);
  }

  lemma {:induction false} SameEntry(active: map<TxnId, Txn>, t: TxnId)
    requires t in active
    ensures active[t := active[t]] == active
  {
  }

  lemma {:induction false} StillGrowing(log: seq<Record>, active: map<TxnId, Txn>, nextTxn: TxnId, r: Record)
    requires TxnsOk(log, active, nextTxn) && Grows(active, r.txn)
    requires r.kind.Update? || r.kind.AllocPage?
    ensures Open(log, r.txn) && StateOk(log + [r], r.txn, Growing)
  {
    assert TxnOk(log, active, r.txn);
    StillOpen(log, r);
  }

  lemma {:induction false} DirtiedMoves(s: Store, dirty: seq<Lsn>, r: Record)
    requires r.lsn == |s.log| + 1 && (r.kind.Writes() ==> r.kind.page < |dirty|)
    ensures DirtyMoves(s, dirty, Dirtied(dirty, r))
  {
  }

  /** What a record of another transaction does to the checkpoint in flight. */
  lemma {:induction false} FlightAfterOwn(s: Store, v: Volatile, r: Record, x: Txn, s': Store, v': Volatile)
    requires Sized(s) && InOrder(s, v) && Appends(s, v, r, s', v') && r.lsn == |s.log| + 1 && Sized(s') && WellFormed(s'.base, s'.log)
    requires r.txn in v.active && v' == v'.(active := v.active[r.txn := x], nextTxn := v.nextTxn, flight := v.flight)
    requires !TouchesHeader(r) && !r.kind.CheckpointEnd?
    requires x.state.Committing? ==> v.flight.Idle? || (v.flight.Written? && r.txn == v.flight.t)
    requires IsNaming(v.flight) && r.txn == v.flight.t ==> x.state.Growing? || x.state.Committing?
    ensures |v'.dirty| == |s'.disk| && FlightLog(s', v'.dirty, v'.bounds, v'.flight)
    ensures FlightTxns(s', v'.active, v'.nextTxn, v'.flight)
  {
    DirtiedMoves(s, v.dirty, r);
    FlightAfterAppend(s, v.dirty, v.bounds, v.flight, r, s', v'.dirty);
    FlightTxnsStep(s, v.active, v.nextTxn, v.flight, s', r.txn, x);
  }

  /** A record by which a running transaction moves on to `x`. */
  lemma {:induction false} OwnStep(s: Store, v: Volatile, r: Record, x: Txn, s': Store, v': Volatile)
    requires Running(s, v) && r.lsn == |s.log| + 1 && Appends(s, v, r, s', v') && CrashSafe(s') && !TouchesHeader(r) && !r.kind.CheckpointEnd?
    requires r.txn in v.active && !Commits(v.active, r.txn) && x.begin == v.active[r.txn].begin
    requires v'.active == v.active[r.txn := x] && v'.nextTxn == v.nextTxn && v'.flight == v.flight
    requires StateOk(s'.log, r.txn, x.state) && (r.kind.Commit? <==> x.state.Committing?)
    requires x.state.Committing? ==> v.flight.Idle? || (v.flight.Written? && r.txn == v.flight.t)
    requires IsNaming(v.flight) && r.txn == v.flight.t ==> x.state.Growing? || x.state.Committing?
    ensures Running(s', v')
  {
    OwnOrder(s, v, r, x, s', v');
    AppendKeeps(s, v, r, s', v');
  }

  lemma {:induction false} OwnOrder(s: Store, v: Volatile, r: Record, x: Txn, s': Store, v': Volatile)
    requires Running(s, v) && Appends(s, v, r, s', v') && r.lsn == |s.log| + 1
    requires Sized(s') && WellFormed(s'.base, s'.log) && !TouchesHeader(r) && !r.kind.CheckpointEnd?
    requires r.txn in v.active && !Commits(v.active, r.txn) && x.begin == v.active[r.txn].begin
    requires v'.active == v.active[r.txn := x] && v'.nextTxn == v.nextTxn && v'.flight == v.flight
    requires StateOk(s'.log, r.txn, x.state) && (r.kind.Commit? <==> x.state.Committing?)
    requires x.state.Committing? ==> v.flight.Idle? || (v.flight.Written? && r.txn == v.flight.t)
    requires IsNaming(v.flight) && r.txn == v.flight.t ==> x.state.Growing? || x.state.Committing?
    ensures InOrder(s', v')
  {
    OrderOf(s, v);
    TxnsAfterOwn(s.base, s.log, r, v.active, x, v.nextTxn);
    CommitsStayOwn(s, v.active, r, s', x, v'.active);
    FlightAfterOwn(s, v, r, x, s', v');
  }

  // ---- Transactions ----

  /** `PageWriteGuard::write`, and the record of `new_page`. */
  lemma {:induction false} GrowStep(s: Store, v: Volatile, r: Record, s': Store, v': Volatile)
    requires Running(s, v) && Admissible(s.base, s.log, r) && Appends(s, v, r, s', v') && !TouchesHeader(r)
    requires (r.kind.Update? || r.kind.AllocPage?) && Grows(v.active, r.txn)
    requires v'.active == v.active && v'.nextTxn == v.nextTxn && v'.flight == v.flight
    ensures Running(s', v')
  {
    Clauses(s, v);
    SafeAppend(s, r, s');
    StillGrowing(s.log, v.active, v.nextTxn, r);
    SameEntry(v.active, r.txn);
    OwnStep(s, v, r, v.active[r.txn], s', v');
  }

  lemma {:induction false} WriteStep(s: Store, v: Volatile, r: Record, s': Store, v': Volatile)
    requires Running(s, v) && r.kind.Update? && r.kind.page < |v.cache| && Grows(v.active, r.txn)
    requires r.lsn == |s.log| + 1 && r.prev == LastLsn(s.log, r.txn)
    requires BODY_START <= r.kind.offset && r.kind.offset + |r.kind.after| <= PAGE_SIZE
    requires r.kind.before == v.cache[r.kind.page].data[r.kind.offset..r.kind.offset + |r.kind.after|]
    requires Strict(s.log, r) && !TouchesHeader(r) && Appends(s, v, r, s', v')
    requires v'.active == v.active && v'.nextTxn == v.nextTxn && v'.flight == v.flight
    ensures Running(s', v')
  {
    Clauses(s, v);
    StillGrowing(s.log, v.active, v.nextTxn, r);
    WriteIsAdmissible(s, v, r);
    GrowStep(s, v, r, s', v');
  }

  lemma {:induction false} BeginKeeps(s: Store, v: Volatile, r: Record, s': Store, v': Volatile)
    requires Running(s, v) && v.nextTxn < CHECKPOINT_TXN && (v.flight.Idle? || v.flight.Synced?)
    requires r == Record(|s.log| + 1, LastLsn(s.log, v.nextTxn), v.nextTxn, Begin)
    requires s' == s.(log := s.log + [r])
    requires v' == v.(active := v.active[v.nextTxn := Txn(|s.log| + 1, Growing)], nextTxn := v.nextTxn + 1, flight := v'.flight)
    requires v'.flight == if v.flight.Idle? then Idle else Opened(v.flight.c, v.flight.low, v.nextTxn)
    ensures Running(s', v') && v.nextTxn !in v.active
  {
    assert Appends(s, v, r, s', v');
    BeginIsSafe(s, v, r, s');
    BeginOrder(s, v, r, s', v');
    AppendKeeps(s, v, r, s', v');
  }

  lemma {:induction false} BeginIsSafe(s: Store, v: Volatile, r: Record, s': Store)
    requires Running(s, v) && v.nextTxn < CHECKPOINT_TXN
    requires r == Record(|s.log| + 1, LastLsn(s.log, v.nextTxn), v.nextTxn, Begin) && s' == s.(log := s.log + [r])
    ensures CrashSafe(s') && v.nextTxn !in v.active
  {
    Clauses(s, v);
    NewTxnIsOpen(s.log, v.active, v.nextTxn, r);
    SafeAppend(s, r, s');
  }

  lemma {:induction false} BeginOrder(s: Store, v: Volatile, r: Record, s': Store, v': Volatile)
    requires Running(s, v) && s' == s.(log := s.log + [r]) && Sized(s') && WellFormed(s'.base, s'.log)
    requires v.nextTxn < CHECKPOINT_TXN && r == Record(|s.log| + 1, LastLsn(s.log, v.nextTxn), v.nextTxn, Begin)
    requires v' == v.(active := v.active[v.nextTxn := Txn(|s.log| + 1, Growing)], nextTxn := v.nextTxn + 1, flight := v'.flight)
    requires if v.flight.Idle? then v'.flight == Idle else v.flight.Synced? && v'.flight == Opened(v.flight.c, v.flight.low, v.nextTxn)
    ensures InOrder(s', v')
  {
    BeginTxns(s, v, r, s', v'.active);
    OrderOf(s, v);
    FlightAfterBegin(s, v, r, s', v');
  }

  lemma {:induction false} BeginTxns(s: Store, v: Volatile, r: Record, s': Store, active': map<TxnId, Txn>)
    requires Running(s, v) && s' == s.(log := s.log + [r]) && Sized(s')
    requires v.nextTxn < CHECKPOINT_TXN && r == Record(|s.log| + 1, LastLsn(s.log, v.nextTxn), v.nextTxn, Begin)
    requires active' == v.active[v.nextTxn := Txn(|s.log| + 1, Growing)]
    ensures TxnsOk(s'.log, active', v.nextTxn + 1) && forall t :: CommitDurable(s', active', t)
  {
    OrderOf(s, v);
    TxnsAfterBegin(s.base, s.log, r, v.active, v.nextTxn);
    NewTxnIsOpen(s.log, v.active, v.nextTxn, r);
    CommitsStayOwn(s, v.active, r, s', Txn(|s.log| + 1, Growing), active');
  }

  lemma {:induction false} FlightAfterBegin(s: Store, v: Volatile, r: Record, s': Store, v': Volatile)
    requires Sized(s) && |v.dirty| == |s.disk| && s' == s.(log := s.log + [r]) && Sized(s') && WellFormed(s'.base, s'.log)
    requires FlightLog(s, v.dirty, v.bounds, v.flight) && FlightTxns(s, v.active, v.nextTxn, v.flight)
    requires v.nextTxn < CHECKPOINT_TXN && r == Record(|s.log| + 1, LastLsn(s.log, v.nextTxn), v.nextTxn, Begin)
    requires v' == v.(active := v.active[v.nextTxn := Txn(|s.log| + 1, Growing)], nextTxn := v.nextTxn + 1, flight := v'.flight)
    requires if v.flight.Idle? then v'.flight == Idle else v.flight.Synced? && v'.flight == Opened(v.flight.c, v.flight.low, v.nextTxn)
    ensures FlightLog(s', v'.dirty, v'.bounds, v'.flight) && FlightTxns(s', v'.active, v'.nextTxn, v'.flight)
  {
    if v.flight.Synced? {
      FlightAfterAppend(s, v.dirty, v.bounds, v.flight, r, s', v.dirty);
      NamerBegins(s, v, r, s', v'.active);
    }
  }

  /** The Commit record: the caller holds the manager, alone or for the checkpoint it is naming. */
  lemma {:induction false} CommitStep(s: Store, v: Volatile, r: Record, s': Store, v': Volatile)
    requires Running(s, v) && Grows(v.active, r.txn)
    requires v.flight.Idle? || (v.flight.Written? && r.txn == v.flight.t)
    requires r == Record(|s.log| + 1, LastLsn(s.log, r.txn), r.txn, Commit) && s' == s.(log := s.log + [r])
    requires v' == v.(active := v.active[r.txn := Txn(v.active[r.txn].begin, Committing)])
    ensures Running(s', v')
  {
    CommitIsNext(s, v, r, s');
    OwnStep(s, v, r, Txn(v.active[r.txn].begin, Committing), s', v');
  }

  lemma {:induction false} CommitIsNext(s: Store, v: Volatile, r: Record, s': Store)
    requires Running(s, v) && Grows(v.active, r.txn)
    requires r == Record(|s.log| + 1, LastLsn(s.log, r.txn), r.txn, Commit) && s' == s.(log := s.log + [r])
    ensures CrashSafe(s') && StateOk(s'.log, r.txn, Committing)
  {
    Clauses(s, v);
    assert TxnOk(s.log, v.active, r.txn);
    LoggedCommitIsSafe(s, r, s');
    assert s'.log[|s.log|] == r;
  }

  lemma {:induction false} DurableCommitIsClosed(s: Store, t: TxnId)
    requires Sized(s) && DurablyCommitted(s, t)
    ensures DurablyClosed(s, t) && Closed(s.log, t) && Committed(s.log, t)
  {
    var i :| 0 <= i < s.durable && s.log[..s.durable][i].txn == t && s.log[..s.durable][i].kind.Commit?;
    assert s.log[i] == s.log[..s.durable][i];
    LastLsnIsPast(s.log[..s.durable], t, i);
    LastLsnIsPast(s.log, t, i);
  }

  lemma {:induction false} LastLsnIsPast(log: seq<Record>, t: TxnId, i: nat)
    requires i < |log| && log[i].txn == t
    ensures i < LastLsn(log, t)
    decreases |log|
  {
    if Last(log).txn != t { LastLsnIsPast(Front(log), t, i); }
  }

  lemma {:induction false} CommitsAfterRemove(s: Store, active: map<TxnId, Txn>, t: TxnId)
    requires Sized(s) && (forall o :: CommitDurable(s, active, o)) && (DurablyCommitted(s, t) || !Commits(active, t))
    ensures forall o :: CommitDurable(s, active - {t}, o)
  {
    forall o ensures CommitDurable(s, active - {t}, o) { assert CommitDurable(s, active, o); }
  }

  /** A commit whose record is durable lets the transaction leave the active set. */
  lemma {:induction false} LeaveKeeps(s: Store, v: Volatile, t: TxnId, v': Volatile)
    requires Running(s, v) && v.flight.Idle? && Closed(s.log, t) && (DurablyCommitted(s, t) || !Commits(v.active, t))
    requires v' == v.(active := v.active - {t})
    ensures Running(s, v')
  {
    Clauses(s, v);
    TxnsAfterRemove(s.log, v.active, v.nextTxn, t);
    CommitsAfterRemove(s, v.active, t);
    forall b ensures BoundKept(s, v', b) { assert BoundKept(s, v, b); }
    RunsAgain(s, v');
  }

  lemma {:induction false} TxnsAfterEnd(base: seq<PageData>, log: seq<Record>, r: Record, active: map<TxnId, Txn>, nextTxn: TxnId)
    requires WellFormed(base, log) && TxnsOk(log, active, nextTxn) && r.txn !in active && r.txn != CHECKPOINT_TXN
    requires Committed(log, r.txn) && r == Record(|log| + 1, LastLsn(log, r.txn), r.txn, End) && LastLsn(log, r.txn) > 0
    ensures Admissible(base, log, r) && WellFormed(base, log + [r]) && TxnsOk(log + [r], active, nextTxn)
  {
    assert TxnOk(log, active, r.txn);
    Append(base, log, r);
    assert log[LastLsn(log, r.txn) - 1].txn == r.txn;
    assert (log + [r])[..|log|] == log;
    ClosedStays(base, log + [r], |log|, r.txn);
    forall t ensures TxnOk(log + [r], active, t) {
      assert TxnOk(log, active, t);
      if t != r.txn { OtherTxnAfterAppend(base, log, r, active, active, t); }
    }
  }

  /** The End of a committed transaction. */
  lemma {:induction false} EndKeeps(s: Store, v: Volatile, r: Record, s': Store)
    requires Running(s, v) && v.flight.Idle? && r.txn !in v.active && r.txn != CHECKPOINT_TXN && LastLsn(s.log, r.txn) > 0
    requires Committed(s.log, r.txn) && r == Record(|s.log| + 1, LastLsn(s.log, r.txn), r.txn, End)
    requires s' == s.(log := s.log + [r])
    ensures Running(s', v)
  {
    EndOrder(s, v, r, s');
    AppendKeeps(s, v, r, s', v);
  }

  lemma {:induction false} EndOrder(s: Store, v: Volatile, r: Record, s': Store)
    requires Running(s, v) && v.flight.Idle? && r.txn !in v.active && r.txn != CHECKPOINT_TXN && LastLsn(s.log, r.txn) > 0
    requires Committed(s.log, r.txn) && r == Record(|s.log| + 1, LastLsn(s.log, r.txn), r.txn, End)
    requires s' == s.(log := s.log + [r])
    ensures CrashSafe(s') && InOrder(s', v)
  {
    Clauses(s, v);
    TxnsAfterEnd(s.base, s.log, r, v.active, v.nextTxn);
    SafeAppend(s, r, s');
    CommitsStay(s, v.active, r, s', v.active);
  }

  // ---- Rolling back ----

  /** A transaction moves on to `x` without a record: its rollback begins, or skips a record. */
  lemma {:induction false} ChangeKeeps(s: Store, v: Volatile, t: TxnId, x: Txn, v': Volatile)
    requires Running(s, v) && t in v.active && x.begin == v.active[t].begin && StateOk(s.log, t, x.state)
    requires !Commits(v.active, t) && x.state.Undoing? && !(IsNaming(v.flight) && t == v.flight.t)
    requires v' == v.(active := v.active[t := x])
    ensures Running(s, v')
  {
    Clauses(s, v);
    TxnsAfterChange(s.log, v.active, v.nextTxn, t, x);
    FlightTxnsStep(s, v.active, v.nextTxn, v.flight, s, t, x);
    forall o ensures CommitDurable(s, v'.active, o) { assert CommitDurable(s, v.active, o); }
    forall b ensures BoundKept(s, v', b) { assert BoundKept(s, v, b); }
    RunsAgain(s, v');
  }

  lemma {:induction false} NotTheNamer(s: Store, v: Volatile, t: TxnId)
    requires Sized(s) && InOrder(s, v) && t in v.active && v.active[t].state.Undoing?
    ensures 0 <= Unsettled(v.flight) < |s.log| ==> s.log[Unsettled(v.flight)].txn != t
  {
  }

  /** One compensation of a rollback, among the steps of everybody else. */
  lemma {:induction false} CompensateKeeps(s: Store, v: Volatile, r: Record, x: Txn, s': Store, v': Volatile)
    requires Running(s, v) && r.kind.Clr? && Admissible(s.base, s.log, r) && r.kind.page < |v.cache| && Appends(s, v, r, s', v')
    requires r.txn in v.active && v.active[r.txn].state.Undoing? && x.begin == v.active[r.txn].begin && x.state.Undoing?
    requires v'.active == v.active[r.txn := x] && v'.nextTxn == v.nextTxn && v'.flight == v.flight
    requires StateOk(s'.log, r.txn, x.state)
    ensures Running(s', v')
  {
    Clauses(s, v);
    NotTheNamer(s, v, r.txn);
    SettledHasNothingToUndo(s, r, Unsettled(v.flight));
    ClrIsSafe(s, v, r, s', v');
    OwnStep(s, v, r, x, s', v');
  }

  /** Nothing is left to compensate and `r` says so: first the Abort, then the End. */
  predicate ClosesBy(state: TxnState, r: Record, state': TxnState)
  {
    (state == Undoing(0) && r.kind.Abort? && state' == RolledBack) || (state == RolledBack && r.kind.End? && state' == Ended)
  }

  lemma {:induction false} CloseIsAdmissible(base: seq<PageData>, log: seq<Record>, r: Record, x: Txn, state': TxnState)
    requires ActiveTxn(log, r.txn, x) && ClosesBy(x.state, r, state') && r.lsn == |log| + 1 && r.prev == LastLsn(log, r.txn)
    ensures Admissible(base, log, r) && !Committed(log, r.txn) && Pending(log, r.txn) == []
  {
    LastLsnIsPast(log, r.txn, x.begin - 1);
  }

  lemma {:induction false} CloseState(s: Store, active: map<TxnId, Txn>, nextTxn: TxnId, r: Record, state: TxnState, s': Store)
    requires CrashSafe(s) && TxnsOk(s.log, active, nextTxn) && r.txn in active && ClosesBy(active[r.txn].state, r, state)
    requires r.lsn == |s.log| + 1 && r.prev == LastLsn(s.log, r.txn) && s' == s.(log := s.log + [r])
    ensures CrashSafe(s') && StateOk(s'.log, r.txn, state)
  {
    assert TxnOk(s.log, active, r.txn);
    CloseIsAdmissible(s.base, s.log, r, active[r.txn], state);
    SafeAppend(s, r, s');
    ClosedState(s'.base, s.log, r, state);
  }

  lemma {:induction false} ClosedState(base: seq<PageData>, log: seq<Record>, r: Record, state: TxnState)
    requires WellFormed(base, log + [r]) && (r.kind.Abort? || r.kind.End?) && !Committed(log, r.txn) && Pending(log, r.txn) == []
    requires state == RolledBack || state == Ended
    ensures StateOk(log + [r], r.txn, state)
  {
    var next := log + [r];
    assert Front(next) == log && Last(next) == r && next[|log|] == r;
    PendingStep(base, next, r.txn);
    CommittedStep(next, r.txn);
  }

  /** Its Abort and its End. */
  lemma {:induction false} CloseKeeps(s: Store, v: Volatile, r: Record, x: Txn, s': Store, v': Volatile)
    requires Running(s, v) && r.lsn == |s.log| + 1 && r.prev == LastLsn(s.log, r.txn) && s' == s.(log := s.log + [r])
    requires r.txn in v.active && ClosesBy(v.active[r.txn].state, r, x.state)
    requires x.begin == v.active[r.txn].begin && v' == v.(active := v.active[r.txn := x])
    ensures Running(s', v')
  {
    Clauses(s, v);
    CloseState(s, v.active, v.nextTxn, r, x.state, s');
    OwnStep(s, v, r, x, s', v');
  }

  // ---- Flushing ----

  lemma {:induction false} CommitsMove(s: Store, active: map<TxnId, Txn>, s': Store)
    requires Sized(s) && Sized(s') && s'.log == s.log && s.durable <= s'.durable && forall t :: CommitDurable(s, active, t)
    ensures forall t :: CommitDurable(s', active, t)
  {
    forall t ensures CommitDurable(s', active, t) {
      assert CommitDurable(s, active, t);
      if DurablyCommitted(s, t) {
        var i :| 0 <= i < s.durable && s.log[..s.durable][i].txn == t && s.log[..s.durable][i].kind.Commit?;
        assert s'.log[..s'.durable][i] == s.log[..s.durable][i];
      }
    }
  }

  lemma {:induction false} RunningMoves(s: Store, v: Volatile, s': Store, v': Volatile)
    requires Running(s, v) && Sized(s) && Live(s', v') && |v'.dirty| == |v.dirty| && Moves(s, s') && s'.log == s.log && s'.floor == s.floor && v' == v.(dirty := v'.dirty)
    requires forall p: PageId :: p < |v.dirty| ==> v'.dirty[p] == 0 || v'.dirty[p] == v.dirty[p]
    ensures Running(s', v')
  {
    Clauses(s, v);
    SettledMoves(s, s', Unsettled(v.flight));
    CommitsMove(s, v.active, s');
    FlightMoves(s, v.dirty, v.bounds, v.flight, s', v'.dirty);
    FlightTxnsMove(s, v.active, v.nextTxn, v.flight, s');
    forall b ensures BoundKept(s', v', b) {
      assert BoundKept(s, v, b);
      if b in v.bounds { BoundMoves(s, s', v.dirty, v'.dirty, b); }
      if b in v.ready { ReadyMoves(s, s', b); }
    }
  }

  lemma {:induction false} SyncKeeps(s: Store, v: Volatile, d: nat)
    requires Live(s, v) && s.durable <= d <= |s.log|
    ensures Live(s.(durable := d), v)
    ensures Running(s, v) ==> Running(s.(durable := d), v)
  {
    LiveSync(s, v, d);
    if Running(s, v) { RunningMoves(s, v, s.(durable := d), v); }
  }

  lemma {:induction false} FlushKeeps(s: Store, v: Volatile, p: PageId, s': Store, v': Volatile)
    requires Live(s, v) && p < |s.disk| && v.cache[p].lsn <= s.durable
    requires s' == s.(disk := s.disk[p := v.cache[p]]) && v' == v.(dirty := v.dirty[p := 0])
    ensures Live(s', v')
    ensures Running(s, v) ==> Running(s', v')
  {
    LiveFlush(s, v, p, s', v');
    if Running(s, v) { RunningMoves(s, v, s', v'); }
  }

  // ---- The steps of a checkpoint ----

  lemma {:induction false} CheckpointBegins(s: Store, v: Volatile, r: Record, s': Store, v': Volatile)
    requires Running(s, v) && Unlocked(v) && r == Record(|s.log| + 1, LastLsn(s.log, CHECKPOINT_TXN), CHECKPOINT_TXN, CheckpointBegin)
    requires r.lsn < Pow256(CHECKPOINT_LEN) && s' == s.(log := s.log + [r])
    requires v' == v.(flight := Collecting(r.lsn, [], v.active.Keys, [], PagesBelow(|v.dirty|)))
    ensures Running(s', v')
  {
    CheckpointRecordIsSafe(s, v, r, s');
    CheckpointOrder(s, v, r, s', v');
    AppendKeeps(s, v, r, s', v');
  }

  lemma {:induction false} CheckpointRecordIsSafe(s: Store, v: Volatile, r: Record, s': Store)
    requires Running(s, v) && r == Record(|s.log| + 1, LastLsn(s.log, CHECKPOINT_TXN), CHECKPOINT_TXN, CheckpointBegin)
    requires s' == s.(log := s.log + [r])
    ensures CrashSafe(s')
  {
    Clauses(s, v);
    SafeAppend(s, r, s');
  }

  lemma {:induction false} CheckpointOrder(s: Store, v: Volatile, r: Record, s': Store, v': Volatile)
    requires Running(s, v) && s' == s.(log := s.log + [r]) && Sized(s') && WellFormed(s'.base, s'.log)
    requires Unlocked(v) && r.txn == CHECKPOINT_TXN && r.kind.CheckpointBegin? && r.lsn == |s.log| + 1 < Pow256(CHECKPOINT_LEN)
    requires v' == v.(flight := Collecting(r.lsn, [], v.active.Keys, [], PagesBelow(|v.dirty|)))
    ensures InOrder(s', v')
  {
    CheckpointTxns(s, v, r, s');
    BeginsCollecting(s, v, r, s');
    CollectingTxns(s', v, v'.flight);
  }

  lemma {:induction false} CheckpointTxns(s: Store, v: Volatile, r: Record, s': Store)
    requires Running(s, v) && s' == s.(log := s.log + [r]) && Sized(s') && WellFormed(s'.base, s'.log) && r.txn == CHECKPOINT_TXN && !r.kind.Commit?
    ensures TxnsOk(s'.log, v.active, v.nextTxn) && forall t :: CommitDurable(s', v.active, t)
  {
    OrderOf(s, v);
    TxnsAfterCheckpointRecord(s.base, s.log, r, v.active, v.nextTxn);
    CommitsStay(s, v.active, r, s', v.active);
  }

  lemma {:induction false} BeginsCollecting(s: Store, v: Volatile, r: Record, s': Store)
    requires Running(s, v) && s' == s.(log := s.log + [r]) && r.kind.CheckpointBegin? && r.lsn == |s.log| + 1 < Pow256(CHECKPOINT_LEN)
    ensures |v.dirty| == |s'.disk|
    ensures CollectingOk(s', v.dirty, v.bounds, Collecting(r.lsn, [], v.active.Keys, [], PagesBelow(|v.dirty|)))
  {
    OrderOf(s, v);
    BoundsOf(s, v);
    BeginsToCollect(s, v, r, s', PagesBelow(|v.dirty|));
  }

  lemma {:induction false} BoundsOf(s: Store, v: Volatile)
    requires Running(s, v)
    ensures Sized(s) && forall b :: b in v.bounds ==> BoundOk(s, v.dirty, b)
  {
    assert Holds(s, v, Bounds);
    forall b | b in v.bounds ensures BoundOk(s, v.dirty, b) { assert BoundKept(s, v, b); }
  }

  lemma {:induction false} CollectingTxns(s: Store, v: Volatile, f: Flight)
    requires Sized(s) && Unlocked(v) && f.Collecting? && f.left == v.active.Keys
    ensures FlightTxns(s, v.active, v.nextTxn, f)
  {
    forall t ensures OnlyNames(v.active, f, t) { }
  }

  lemma {:induction false} ActiveIsRead(s: Store, v: Volatile, t: TxnId, v': Volatile)
    requires Running(s, v) && v.flight.Collecting? && t in v.flight.left
    requires v' == v.(flight := v.flight.(att := v.flight.att + [(t, LastLsn(s.log, t))], left := v.flight.left - {t}))
    ensures Running(s, v')
  {
    Clauses(s, v);
    assert TxnOk(s.log, v.active, t) && OnlyNames(v.active, v.flight, t);
    CollectActiveKeeps(s, v, t, v'.flight);
    FlightTxnsOf(s, v, v'.flight);
    forall b ensures BoundKept(s, v', b) { assert BoundKept(s, v, b); }
    RunsAgain(s, v');
  }

  lemma {:induction false} FlightTxnsOf(s: Store, v: Volatile, f: Flight)
    requires Sized(s) && FlightTxns(s, v.active, v.nextTxn, v.flight) && v.flight.Collecting?
    requires (f.Collecting? && f.left <= v.flight.left) || f.Logged?
    ensures FlightTxns(s, v.active, v.nextTxn, f)
  {
    forall t ensures OnlyNames(v.active, f, t) { assert OnlyNames(v.active, v.flight, t); }
  }

  lemma {:induction false} DirtyIsRead(s: Store, v: Volatile, p: PageId, v': Volatile)
    requires Running(s, v) && v.flight.Collecting? && p in v.flight.rest && p < |v.dirty|
    requires v' == v.(flight := v.flight.(dpt := WithDirty(v.flight.dpt, p, v.dirty[p]), rest := v.flight.rest - {p}))
    ensures Running(s, v')
  {
    Clauses(s, v);
    forall b | b in v.bounds ensures BoundOk(s, v.dirty, b) { assert BoundKept(s, v, b); }
    CollectDirtyKeeps(s, v, p, v'.flight);
    FlightTxnsOf(s, v, v'.flight);
    forall b ensures BoundKept(s, v', b) { assert BoundKept(s, v, b); }
    RunsAgain(s, v');
  }

  lemma {:induction false} SnapshotKeeps(s: Store, v: Volatile, r: Record, low: Lsn, s': Store, v': Volatile)
    requires Running(s, v) && IsSnapshot(r, s.log, v.flight) && s' == s.(log := s.log + [r])
    requires 0 < low <= v.flight.c && (forall p :: p in ToMap(v.flight.dpt) ==> low <= ToMap(v.flight.dpt)[p])
    requires forall p: PageId :: p < |v.dirty| && v.dirty[p] > 0 ==> low <= v.dirty[p]
    requires v' == v.(flight := Logged(v.flight.c, low))
    ensures Running(s', v')
  {
    Clauses(s, v);
    SnapshotIsSafe(s, v.dirty, v.bounds, v.flight, r, s');
    SnapshotOrder(s, v, r, low, s', v');
    AppendKeeps(s, v, r, s', v');
  }

  lemma {:induction false} SnapshotOrder(s: Store, v: Volatile, r: Record, low: Lsn, s': Store, v': Volatile)
    requires Running(s, v) && s' == s.(log := s.log + [r]) && Sized(s') && WellFormed(s'.base, s'.log) && IsSnapshot(r, s.log, v.flight)
    requires 0 < low <= v.flight.c && (forall p :: p in ToMap(v.flight.dpt) ==> low <= ToMap(v.flight.dpt)[p])
    requires forall p: PageId :: p < |v.dirty| && v.dirty[p] > 0 ==> low <= v.dirty[p]
    requires v' == v.(flight := Logged(v.flight.c, low))
    ensures InOrder(s', v')
  {
    CheckpointTxns(s, v, r, s');
    OrderOf(s, v);
    BoundsOf(s, v);
    SnapshotIsCandidate(s, v.dirty, v.bounds, v.flight, r, s', low);
    SnapshotTxns(s, v, r, s', v'.flight);
  }

  lemma {:induction false} SnapshotIsSafe(s: Store, dirty: seq<Lsn>, bounds: set<Lsn>, f: Flight, r: Record, s': Store)
    requires CrashSafe(s) && |dirty| == |s.disk| && IsSnapshot(r, s.log, f) && CollectingOk(s, dirty, bounds, f)
    requires s' == s.(log := s.log + [r])
    ensures CrashSafe(s')
  {
    AppendShape(s.base, s.log, r);
    SnapshotIsRight(s, dirty, bounds, f, r, s');
    AppendSafe(s, s', r);
  }

  lemma {:induction false} SnapshotTxns(s: Store, v: Volatile, r: Record, s': Store, f: Flight)
    requires Sized(s) && s' == s.(log := s.log + [r]) && Sized(s') && WellFormed(s'.base, s'.log)
    requires FlightTxns(s, v.active, v.nextTxn, v.flight) && IsSnapshot(r, s.log, v.flight) && f.Logged?
    ensures FlightTxns(s', v.active, v.nextTxn, f)
  {
    FlightTxnsMove(s, v.active, v.nextTxn, v.flight, s');
    FlightTxnsOf(s', v, f);
  }

  lemma {:induction false} SyncedKeeps(s: Store, v: Volatile, s': Store, v': Volatile)
    requires Running(s, v) && v.flight.Logged? && s' == AllDurable(s) && v' == v.(flight := Synced(v.flight.c, v.flight.low))
    ensures Running(s', v')
  {
    Clauses(s, v);
    SyncKeeps(s, v, |s.log|);
    SyncedIsCandidate(s, v, s');
    Clauses(s', v);
    forall b ensures BoundKept(s', v', b) { assert BoundKept(s', v, b); }
  }

  lemma {:induction false} BoundNamed(s: Store, v: Volatile, r: Record, c: Lsn, low: Lsn, s': Store, v': Volatile, b: Lsn)
    requires Sized(s) && Appends(s, v, r, s', v') && Sized(s') && WellFormed(s'.base, s'.log) && r.lsn == |s.log| + 1
    requires Candidate(s, v.dirty, v.bounds, c, low) && HeaderIs(s', |s'.log|, c) && BoundKept(s, v, b)
    ensures BoundKept(s', v', b)
  {
    if b in v.bounds {
      NewlyNamed(s, v.dirty, r, c, s', b);
      if b in v.ready { ReadyAfterAppend(s, s', r, b); }
    }
  }

  lemma {:induction false} NewlyNamed(s: Store, dirty: seq<Lsn>, r: Record, c: Lsn, s': Store, b: Lsn)
    requires Sized(s) && s' == s.(log := s.log + [r]) && Sized(s') && WellFormed(s'.base, s'.log) && r.lsn == |s.log| + 1
    requires r.kind.Writes() ==> r.kind.page < |dirty|
    requires NeedsOnlyFrom(s, c, b) && HeaderIs(s', |s'.log|, c) && BoundOk(s, dirty, b)
    ensures BoundOk(s', Dirtied(dirty, r), b)
  {
    DisposableMoves(s, s', b);
    NeedsMove(s, s', c, b);
  }

  lemma {:induction false} NamerTxns(s: Store, v: Volatile, r: Record, s': Store, f: Flight)
    requires Sized(s) && WellFormed(s.base, s.log) && s' == s.(log := s.log + [r]) && Sized(s') && WellFormed(s'.base, s'.log)
    requires TxnsOk(s.log, v.active, v.nextTxn) && FlightTxns(s, v.active, v.nextTxn, v.flight) && v.flight.Opened?
    requires r.txn == v.flight.t && v.active[r.txn].state.Growing? && r.kind.Update?
    requires f == Written(v.flight.c, v.flight.low, r.txn, |s.log|)
    ensures TxnsOk(s'.log, v.active, v.nextTxn) && FlightTxns(s', v.active, v.nextTxn, f)
  {
    StillGrowing(s.log, v.active, v.nextTxn, r);
    SameEntry(v.active, r.txn);
    TxnsAfterOwn(s.base, s.log, r, v.active, v.active[r.txn], v.nextTxn);
    NamerFlight(s, v, r, s', f);
  }

  lemma {:induction false} NamerFlight(s: Store, v: Volatile, r: Record, s': Store, f: Flight)
    requires Sized(s) && s' == s.(log := s.log + [r]) && Sized(s') && WellFormed(s'.base, s'.log)
    requires FlightTxns(s, v.active, v.nextTxn, v.flight) && v.flight.Opened? && r.txn == v.flight.t
    requires f == Written(v.flight.c, v.flight.low, r.txn, |s.log|)
    ensures FlightTxns(s', v.active, v.nextTxn, f)
  {
    FlightTxnsMove(s, v.active, v.nextTxn, v.flight, s');
    forall t ensures OnlyNames(v.active, f, t) { assert OnlyNames(v.active, v.flight, t); }
  }

  lemma {:induction false} BoundsNamed(s: Store, v: Volatile, r: Record, c: Lsn, low: Lsn, s': Store, v': Volatile)
    requires Sized(s) && Appends(s, v, r, s', v') && Sized(s') && WellFormed(s'.base, s'.log) && r.lsn == |s.log| + 1
    requires Candidate(s, v.dirty, v.bounds, c, low) && HeaderIs(s', |s'.log|, c) && forall b :: BoundKept(s, v, b)
    ensures forall b :: BoundKept(s', v', b)
  {
    forall b ensures BoundKept(s', v', b) {
      assert BoundKept(s, v, b);
      BoundNamed(s, v, r, c, low, s', v', b);
    }
  }

  lemma {:induction false} SettledBut(s: Store, r: Record, s': Store)
    requires Sized(s) && s' == s.(log := s.log + [r]) && Sized(s') && HeaderSettled(s, -1)
    ensures HeaderSettled(s', |s.log|)
  {
    SettledAfterAppend(s, s', r, |s.log|);
  }

  lemma {:induction false} HeaderIsWritten(s: Store, v: Volatile, r: Record, s': Store, v': Volatile)
    requires Running(s, v) && v.flight.Opened? && Grows(v.active, v.flight.t) && 0 < |v.cache|
    requires r == HeaderWrite(s.log, v.cache, v.flight.t, v.flight.c) && Appends(s, v, r, s', v')
    requires v'.active == v.active && v'.nextTxn == v.nextTxn && v'.flight == Written(v.flight.c, v.flight.low, v.flight.t, |s.log|)
    ensures Running(s', v')
  {
    Clauses(s, v);
    HeaderMemory(s, v, r, s', v');
    HeaderOrder(s, v, r, s', v');
    SettledBut(s, r, s');
    BoundsNamed(s, v, r, v.flight.c, v.flight.low, s', v');
    RunsAgain(s', v');
  }

  lemma {:induction false} HeaderMemory(s: Store, v: Volatile, r: Record, s': Store, v': Volatile)
    requires Live(s, v) && HeaderSettled(s, -1) && InOrder(s, v) && v.flight.Opened? && Grows(v.active, v.flight.t)
    requires r == HeaderWrite(s.log, v.cache, v.flight.t, v.flight.c) && Appends(s, v, r, s', v')
    ensures Live(s', v') && HeaderIs(s', |s'.log|, v.flight.c)
  {
    StillGrowing(s.log, v.active, v.nextTxn, r);
    HeaderWriteIsAdmissible(s, v, r, v.flight.c);
    HeaderWriteIsSafe(s, v, r, v.flight.low, v.flight.c, s', v');
  }

  lemma {:induction false} HeaderOrder(s: Store, v: Volatile, r: Record, s': Store, v': Volatile)
    requires CrashSafe(s) && InOrder(s, v) && Appends(s, v, r, s', v') && r.lsn == |s.log| + 1 && Sized(s') && WellFormed(s'.base, s'.log)
    requires v.flight.Opened? && v.active[v.flight.t].state.Growing? && r.txn == v.flight.t && r.kind.Update?
    requires v'.active == v.active && v'.nextTxn == v.nextTxn && v'.flight == Written(v.flight.c, v.flight.low, v.flight.t, |s.log|)
    requires HeaderIs(s', |s'.log|, v.flight.c) && forall b :: BoundKept(s, v, b)
    ensures InOrder(s', v')
  {
    NamerTxns(s, v, r, s', v'.flight);
    CommitsStay(s, v.active, r, s', v.active);
    HeaderFlight(s, v, r, s', v');
  }

  lemma {:induction false} HeaderFlight(s: Store, v: Volatile, r: Record, s': Store, v': Volatile)
    requires CrashSafe(s) && |v.dirty| == |s.disk| && Appends(s, v, r, s', v') && r.lsn == |s.log| + 1 && Sized(s')
    requires v.flight.Opened? && Candidate(s, v.dirty, v.bounds, v.flight.c, v.flight.low) && r.txn == v.flight.t
    requires v'.flight == Written(v.flight.c, v.flight.low, v.flight.t, |s.log|) && HeaderIs(s', |s'.log|, v.flight.c)
    requires r.kind.Update? && forall b :: BoundKept(s, v, b)
    ensures |v'.dirty| == |s'.disk| && FlightLog(s', v'.dirty, v'.bounds, v'.flight)
  {
    DirtiedMoves(s, v.dirty, r);
    CandidateAfterAppend(s, v.dirty, v.bounds, v.flight.c, v.flight.low, r, s', v'.dirty);
    forall b | b in v.bounds ensures BoundOk(s, v.dirty, b) { assert BoundKept(s, v, b); }
    assert s.floor <= s.disk[HEADER_PAGE].lsn <= s.durable;
    NamedOnce(s, v.dirty, v.bounds, r, s', v'.flight);
  }

  /** With its commit durable the header transaction leaves, and the checkpoint's bound may be acted on. */
  lemma {:induction false} NameKeeps(s: Store, v: Volatile, bound: Lsn, v': Volatile)
    requires Running(s, v) && v.flight.Written? && Commits(v.active, v.flight.t) && DurablyCommitted(s, v.flight.t)
    requires v' == v.(active := v.active - {v.flight.t}, bounds := v.bounds + {bound}, flight := Idle)
    requires 0 < bound <= v.flight.low && forall t :: t in v'.active ==> bound <= v'.active[t].begin
    ensures Running(s, v')
  {
    Clauses(s, v);
    DurableCommitIsClosed(s, v.flight.t);
    NamedOrder(s, v, v');
    SettledNow(s, v.flight.at, v.flight.t);
    NamedBounds(s, v, bound, v');
    RunsAgain(s, v');
  }

  lemma {:induction false} NamedBounds(s: Store, v: Volatile, bound: Lsn, v': Volatile)
    requires Sized(s) && WellFormed(s.base, s.log) && InOrder(s, v) && InOrder(s, v') && v.flight.Written?
    requires DurablyCommitted(s, v.flight.t) && DurablyClosed(s, v.flight.t) && v.flight.t != CHECKPOINT_TXN
    requires v' == v.(active := v.active - {v.flight.t}, bounds := v.bounds + {bound}, flight := Idle)
    requires 0 < bound <= v.flight.low && forall t :: t in v'.active ==> bound <= v'.active[t].begin
    requires forall b :: BoundKept(s, v, b)
    ensures forall b :: BoundKept(s, v', b)
  {
    NewBound(s, v, bound, v'.active);
    forall b ensures BoundKept(s, v', b) { assert BoundKept(s, v, b); }
  }

  lemma {:induction false} NamedOrder(s: Store, v: Volatile, v': Volatile)
    requires Sized(s) && InOrder(s, v) && v.flight.Written? && Closed(s.log, v.flight.t) && DurablyCommitted(s, v.flight.t)
    requires v' == v.(active := v.active - {v.flight.t}, bounds := v'.bounds, flight := Idle)
    ensures InOrder(s, v') && v.flight.t != CHECKPOINT_TXN
  {
    assert TxnOk(s.log, v.active, v.flight.t);
    TxnsAfterRemove(s.log, v.active, v.nextTxn, v.flight.t);
    CommitsAfterRemove(s, v.active, v.flight.t);
  }

  lemma {:induction false} SettledNow(s: Store, at: nat, t: TxnId)
    requires Sized(s) && HeaderSettled(s, at) && at < |s.log| && s.log[at].txn == t && DurablyClosed(s, t)
    ensures HeaderSettled(s, -1)
  {
  }

  lemma {:induction false} NewBound(s: Store, v: Volatile, bound: Lsn, active': map<TxnId, Txn>)
    requires Sized(s) && WellFormed(s.base, s.log) && |v.dirty| == |s.disk| && v.flight.Written?
    requires FlightLog(s, v.dirty, v.bounds, v.flight) && FlightTxns(s, v.active, v.nextTxn, v.flight)
    requires DurablyCommitted(s, v.flight.t) && DurablyClosed(s, v.flight.t)
    requires active' == v.active - {v.flight.t} && TxnsOk(s.log, active', v.nextTxn) && v.flight.t != CHECKPOINT_TXN
    requires 0 < bound <= v.flight.low && forall t :: t in active' ==> bound <= active'[t].begin
    ensures BoundOk(s, v.dirty, bound)
  {
    var f := v.flight;
    forall t ensures FinishedDurably(s, active'.Keys, t) { assert FinishedDurably(s, v.active.Keys, t); }
    NamerIsDurable(s, f.t, f.at);
    BoundIsDisposable(s, active', v.nextTxn, f.at, bound);
    assert HeaderIs(s, |s.log|, f.c);
  }

  /** The header write precedes its transaction's Commit, so it is durable too. */
  lemma {:induction false} NamerIsDurable(s: Store, t: TxnId, at: nat)
    requires Sized(s) && WellFormed(s.base, s.log) && at < |s.log| && s.log[at].txn == t && s.log[at].kind.Update?
    requires DurablyCommitted(s, t)
    ensures at < s.durable
  {
    var i :| 0 <= i < s.durable && s.log[..s.durable][i].txn == t && s.log[..s.durable][i].kind.Commit?;
    assert s.log[i] == s.log[..s.durable][i];
    if s.durable <= at { CommitIsLast(s.base, s.log, i, at); }
  }

  lemma {:induction false} CommitIsLast(base: seq<PageData>, log: seq<Record>, i: nat, j: nat)
    requires WellFormed(base, log) && i < |log| && j < |log| && log[i].kind.Commit? && log[j].kind.Update? && log[j].txn == log[i].txn
    ensures j < i
  {
    RecordWasAdmissible(base, log, j);
    assert forall k :: 0 <= k < j ==> log[..j][k] == log[k];
  }

  /** `finish_checkpoint` has flushed page 0: no version that can still be read names an older checkpoint. */
  lemma {:induction false} ReadyKeeps(s: Store, v: Volatile, bound: Lsn, v': Volatile)
    requires Running(s, v) && bound in v.bounds && 0 < |s.disk| == |v.cache| && s.disk[HEADER_PAGE] == v.cache[HEADER_PAGE]
    requires v' == v.(ready := v.ready + {bound})
    ensures Running(s, v')
  {
    Clauses(s, v);
    assert BoundKept(s, v, bound);
    forall k | s.disk[HEADER_PAGE].lsn <= k <= |s.log| ensures NamedNeeds(s, bound, k) { CurrentHeader(s, k); }
    forall b ensures BoundKept(s, v', b) { assert BoundKept(s, v, b); }
    RunsAgain(s, v');
  }

  // ---- Truncation ----

  /** Versions of page 0 below this can never be read again, nor brought back by undo. */
  function Floor(s: Store, f: Flight): nat
    requires 0 < |s.disk|
  {
    var l := s.disk[HEADER_PAGE].lsn;
    if f.Written? && f.at < l then f.at else l
  }

  lemma {:induction false} FloorNeeds(s: Store, dirty: seq<Lsn>, bounds: set<Lsn>, f: Flight, bound: Lsn)
    requires Sized(s) && |dirty| == |s.disk| && FlightLog(s, dirty, bounds, f) && bound in bounds && ReadyOk(s, bound)
    ensures forall k :: Floor(s, f) <= k <= |s.log| ==> NamedNeeds(s, bound, k)
  {
    forall k: nat | Floor(s, f) <= k <= |s.log| ensures NamedNeeds(s, bound, k) {
      if s.disk[HEADER_PAGE].lsn <= k {
        assert NamedNeeds(s, bound, k);
      } else if k == f.at {
        assert NamedNeeds(s, bound, f.at);
      } else {
        assert HeaderIs(s, k, f.c);
      }
    }
  }

  /** The records below a bound may go while the next checkpoint is in flight, even when its name for the
      header has reached the disk and may still be undone. */
  lemma {:induction false} TruncateKeeps(s: Store, v: Volatile, bound: Lsn, s': Store)
    requires Running(s, v) && Sized(s) && bound in v.ready
    requires s' == s.(truncated := s'.truncated, floor := Floor(s, v.flight)) && s.truncated <= s'.truncated < bound
    ensures Running(s', v)
  {
    Clauses(s, v);
    assert BoundKept(s, v, bound);
    FloorNeeds(s, v.dirty, v.bounds, v.flight, bound);
    TruncateSafe(s, s', bound, Unsettled(v.flight));
    TruncatedLive(s, v, bound, s');
    FlightTruncated(s, v.dirty, v.bounds, v.flight, bound, s');
    TruncatedTxns(s, v, s');
    TruncatedBounds(s, v, s');
  }

  lemma {:induction false} TruncatedBounds(s: Store, v: Volatile, s': Store)
    requires Sized(s) && Sized(s') && s' == s.(truncated := s'.truncated, floor := s'.floor)
    requires (forall b :: BoundKept(s, v, b)) && HeaderSettled(s, Unsettled(v.flight))
    ensures (forall b :: BoundKept(s', v, b)) && HeaderSettled(s', Unsettled(v.flight))
  {
    forall b ensures BoundKept(s', v, b) {
      assert BoundKept(s, v, b);
      TruncatedBound(s, s', v.dirty, b);
    }
  }

  lemma {:induction false} TruncatedLive(s: Store, v: Volatile, bound: Lsn, s': Store)
    requires Live(s, v) && CrashSafe(s') && BoundOk(s, v.dirty, bound)
    requires s' == s.(truncated := s'.truncated, floor := s'.floor) && s'.truncated < bound
    ensures Live(s', v)
  {
    forall p: PageId | p < |s'.disk| ensures DirtyPageOk(s', v.cache, v.dirty, p) {
      assert DirtyPageOk(s, v.cache, v.dirty, p);
    }
  }

  lemma {:induction false} TruncatedTxns(s: Store, v: Volatile, s': Store)
    requires Sized(s) && Sized(s') && s' == s.(truncated := s'.truncated, floor := s'.floor)
    requires (forall t :: CommitDurable(s, v.active, t)) && FlightTxns(s, v.active, v.nextTxn, v.flight)
    ensures (forall t :: CommitDurable(s', v.active, t)) && FlightTxns(s', v.active, v.nextTxn, v.flight)
  {
    forall t ensures CommitDurable(s', v.active, t) { assert CommitDurable(s, v.active, t); }
    if v.flight.Synced? || IsNaming(v.flight) {
      forall t ensures FinishedDurably(s', v.active.Keys, t) { assert FinishedDurably(s, v.active.Keys, t); }
    }
  }

  lemma {:induction false} TruncatedBound(s: Store, s': Store, dirty: seq<Lsn>, bound: Lsn)
    requires Sized(s) && Sized(s') && s' == s.(truncated := s'.truncated, floor := s'.floor)
    ensures BoundOk(s, dirty, bound) ==> BoundOk(s', dirty, bound)
    ensures ReadyOk(s, bound) ==> ReadyOk(s', bound)
  {
    if ReadyOk(s, bound) {
      forall k | s'.disk[HEADER_PAGE].lsn <= k <= |s'.log| ensures NamedNeeds(s', bound, k) { assert NamedNeeds(s, bound, k); }
    }
  }

  lemma {:induction false} DropBoundKeeps(s: Store, v: Volatile, bound: Lsn, v': Volatile)
    requires Running(s, v) && v' == v.(bounds := v.bounds - {bound}, ready := v.ready - {bound})
    ensures Running(s, v')
  {
    Clauses(s, v);
    FewerBounds(s, v.dirty, v.bounds, v.flight, v'.bounds);
    forall b ensures BoundKept(s, v', b) { assert BoundKept(s, v, b); }
    RunsAgain(s, v');
  }

  // ---- After recovery ----

  /** With every transaction finished and everything flushed, transactions may run again. */
  lemma {:induction false} RecoveredIsRunning(s: Store, v: Volatile)
    requires Live(s, v) && s.durable == |s.log| && v.active == map[] && v.bounds == {} && v.ready == {} && v.flight == Idle
    requires forall t :: Finished(s.log, t)
    requires v.nextTxn <= CHECKPOINT_TXN && forall i :: 0 <= i < |s.log| && s.log[i].txn != CHECKPOINT_TXN ==> s.log[i].txn < v.nextTxn
    ensures Running(s, v)
  {
    assert s.log[..s.durable] == s.log;
    forall i | 0 <= i < |s.log| && TouchesHeader(s.log[i]) ensures DurablyClosed(s, s.log[i].txn) {
      assert Finished(s.log, s.log[i].txn);
      RecordWasAdmissible(s.base, s.log, i);
    }
    assert forall t :: TxnOk(s.log, v.active, t);
    assert forall t :: CommitDurable(s, v.active, t);
    assert forall b :: BoundKept(s, v, b);
  }
}
