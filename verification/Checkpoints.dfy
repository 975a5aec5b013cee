/** The fuzzy checkpoint in flight: what holds of it at every step while other sessions write pages, flush
    pages and roll back; why the snapshot it ends up logging is one recovery may start from; and why the
    records below its truncation bound may go. */
module Checkpoints {
  import opened Bytes
  import opened LogRecords
  import opened History
  import opened CrashSafety
  import opened Analysis
  import opened Runtime

  /** A checkpoint begun at `c` whose CheckpointEnd has not been logged. */
  predicate Begun(log: seq<Record>, c: Lsn)
  {
    0 < c <= |log| && log[c - 1].kind.CheckpointBegin? && FirstEnd(log, c) == |log|
  }

  /** What the part of `active_snapshot` collected so far says about `t`: it may have been read at any
      moment since the checkpoint began, and only counts if `t` has logged nothing since. */
  ghost predicate AttSoFar(log: seq<Record>, c: Lsn, att: map<TxnId, Lsn>, left: set<TxnId>, t: TxnId)
    requires 0 < c <= |log|
  {
    var quiet := NoRecords(log, c - 1, |log|, t);
    && (t in att ==> t != CHECKPOINT_TXN && LastLsn(log, t) > 0 && !Committed(log[..c - 1], t))
    && (t in att && quiet ==> att[t] == LastLsn(log[..c - 1], t))
    && (t != CHECKPOINT_TXN && t !in att && t !in left && quiet && LastLsn(log[..c - 1], t) > 0 ==> Closed(log[..c - 1], t))
  }

  /** What the part of `dirty_page_table` collected so far says about `p`: the page may since have been
      written, flushed and written again. */
  predicate DptSoFar(s: Store, dirty: seq<Lsn>, c: Lsn, dpt: map<PageId, Lsn>, rest: set<PageId>, p: PageId)
    requires |dirty| == |s.disk|
  {
    if p in dpt then
      && p < |s.disk| && p !in rest && s.truncated < dpt[p] <= |s.log| && Covered(s.log, s.disk[p], p, dpt[p])
      && (dirty[p] > 0 ==> dpt[p] <= dirty[p])
    else if p in rest then p < |s.disk|
    else p < |s.disk| ==> Covered(s.log, s.disk[p], p, c) && (dirty[p] > 0 ==> c <= dirty[p])
  }

  /** A truncation that other checkpoints may still do leaves what this one has collected readable. */
  predicate SparedBy(bounds: set<Lsn>, c: Lsn, dpt: map<PageId, Lsn>)
  {
    && (forall b :: b in bounds ==> b <= c)
    && forall b, p :: b in bounds && p in dpt ==> b <= dpt[p]
  }

  ghost predicate CollectingOk(s: Store, dirty: seq<Lsn>, bounds: set<Lsn>, f: Flight)
    requires |dirty| == |s.disk| && f.Collecting?
  {
    && Begun(s.log, f.c) && s.truncated < f.c < Pow256(CHECKPOINT_LEN)
    && SparedBy(bounds, f.c, ToMap(f.dpt)) && (forall x :: x in f.dpt ==> 0 < x.1)
    && (forall t :: AttSoFar(s.log, f.c, ToMap(f.att), f.left, t))
    && forall p: PageId :: DptSoFar(s, dirty, f.c, ToMap(f.dpt), f.rest, p)
  }

  /** The checkpoint at `c` may be named in the header; recovery from it reads nothing below `low` nor
      below the bound of an earlier checkpoint. */
  ghost predicate Candidate(s: Store, dirty: seq<Lsn>, bounds: set<Lsn>, c: Lsn, low: Lsn)
  {
    && Sized(s) && 0 < c < Pow256(CHECKPOINT_LEN) && GoodCheckpoint(s, c) && NeedsOnlyFrom(s, c, low)
    && (forall b :: b in bounds ==> NeedsOnlyFrom(s, c, b))
    && (forall p: PageId :: p < |dirty| && dirty[p] > 0 ==> low <= dirty[p])
  }

  /** The store once everything logged so far is durable. */
  function AllDurable(s: Store): Store
  {
    s.(durable := |s.log|)
  }

  /** The header transaction's write names the checkpoint; undoing it would name the one before, from
      which recovery could still start. */
  ghost predicate NamedBy(s: Store, bounds: set<Lsn>, f: Flight)
    requires Sized(s) && f.Written?
  {
    && s.floor <= f.at < |s.log| && f.c <= f.at && s.log[f.at].txn == f.t && s.log[f.at].kind.Update?
    && (forall k: nat :: f.at < k <= |s.log| ==> HeaderIs(s, k, f.c))
    && forall b :: b in bounds ==> NamedNeeds(s, b, f.at)
  }

  predicate HeaderIs(s: Store, k: nat, c: Lsn)
    requires 0 < |s.base| && k <= |s.log|
  {
    HeaderAt(s.base, s.log, k) == c
  }

  /** What holds of the log and the disk while a checkpoint is in flight. */
  ghost predicate FlightLog(s: Store, dirty: seq<Lsn>, bounds: set<Lsn>, f: Flight)
    requires Sized(s) && |dirty| == |s.disk|
  {
    match f
    case Idle => true
    case Collecting(_, _, _, _, _) => CollectingOk(s, dirty, bounds, f)
    case Logged(c, low) => Candidate(AllDurable(s), dirty, bounds, c, low)
    case Synced(c, low) => Candidate(s, dirty, bounds, c, low)
    case Opened(c, low, _) => Candidate(s, dirty, bounds, c, low)
    case Written(c, low, _, _) => Candidate(s, dirty, bounds, c, low) && NamedBy(s, bounds, f)
  }

  predicate IsNaming(f: Flight)
  {
    f.Opened? || f.Written?
  }

  /** The one header write that need not be durably finished. */
  function Unsettled(f: Flight): int
  {
    if f.Written? then f.at else -1
  }

  ghost predicate FinishedDurably(s: Store, running: set<TxnId>, t: TxnId)
    requires Sized(s)
  {
    t !in running && t != CHECKPOINT_TXN && LastLsn(s.log, t) > 0 ==> DurablyClosed(s, t)
  }

  predicate OnlyNames(active: map<TxnId, Txn>, f: Flight, t: TxnId)
  {
    t in active && active[t].state.Committing? ==> f.Written? && t == f.t
  }

  /** What the checkpoint's hold on the transaction manager guarantees: nobody else commits, and since
      the sync everything finished is durably so. */
  ghost predicate FlightTxns(s: Store, active: map<TxnId, Txn>, nextTxn: TxnId, f: Flight)
    requires Sized(s)
  {
    && (!f.Idle? ==> forall t :: OnlyNames(active, f, t))
    && (f.Collecting? ==> f.left <= active.Keys)
    && (f.Synced? || IsNaming(f) ==> forall t :: FinishedDurably(s, active.Keys, t))
    && (IsNaming(f) ==> f.t in active && f.t == nextTxn - 1 && (active[f.t].state.Growing? || Commits(active, f.t)))
  }

  // ---- Steps of other sessions ----

  lemma {:induction false} BegunStays(log: seq<Record>, r: Record, c: Lsn)
    requires Begun(log, c) && !r.kind.CheckpointEnd?
    ensures Begun(log + [r], c)
  {
    var next := log + [r];
    assert forall i :: 0 <= i < |log| ==> next[i] == log[i];
    assert next[|log|] == r;
  }

  lemma {:induction false} AttStays(log: seq<Record>, r: Record, c: Lsn, att: map<TxnId, Lsn>, left: set<TxnId>, t: TxnId)
    requires 0 < c <= |log| && AttSoFar(log, c, att, left, t)
    ensures AttSoFar(log + [r], c, att, left, t)
  {
    var next := log + [r];
    assert next[..c - 1] == log[..c - 1] && Front(next) == log;
    if NoRecords(next, c - 1, |next|, t) {
      assert forall j :: c - 1 <= j < |log| ==> next[j] == log[j];
      assert NoRecords(log, c - 1, |log|, t);
    }
  }

  lemma {:induction false} DptStays(s: Store, dirty: seq<Lsn>, s': Store, dirty': seq<Lsn>, c: Lsn, dpt: map<PageId, Lsn>, rest: set<PageId>, p: PageId)
    requires Sized(s) && Sized(s') && Moves(s, s') && s.log <= s'.log && |dirty| == |dirty'| == |s.disk| && c <= |s.log|
    requires p < |dirty| ==> dirty'[p] == 0 || dirty'[p] == dirty[p] || |s.log| < dirty'[p]
    requires DptSoFar(s, dirty, c, dpt, rest, p)
    ensures DptSoFar(s', dirty', c, dpt, rest, p)
  {
    assert Agree(s.log, s'.log, |s.log|);
    if p in dpt {
      CoveredMoves(s.log, s'.log, |s.log|, s.disk[p], s'.disk[p], p, dpt[p]);
    } else if p < |s.disk| && p !in rest {
      CoveredMoves(s.log, s'.log, |s.log|, s.disk[p], s'.disk[p], p, c);
    }
  }

  predicate DirtyMoves(s: Store, dirty: seq<Lsn>, dirty': seq<Lsn>)
  {
    |dirty'| == |dirty| && forall p: PageId :: p < |dirty| ==> dirty'[p] == 0 || dirty'[p] == dirty[p] || |s.log| < dirty'[p]
  }

  lemma {:induction false} DptsStay(s: Store, dirty: seq<Lsn>, s': Store, dirty': seq<Lsn>, c: Lsn, dpt: map<PageId, Lsn>, rest: set<PageId>)
    requires Sized(s) && Sized(s') && Moves(s, s') && s.log <= s'.log && |dirty| == |s.disk| && c <= |s.log|
    requires DirtyMoves(s, dirty, dirty') && forall p: PageId :: DptSoFar(s, dirty, c, dpt, rest, p)
    ensures forall p: PageId :: DptSoFar(s', dirty', c, dpt, rest, p)
  {
    forall p: PageId ensures DptSoFar(s', dirty', c, dpt, rest, p) {
      assert DptSoFar(s, dirty, c, dpt, rest, p);
      DptStays(s, dirty, s', dirty', c, dpt, rest, p);
    }
  }

  lemma {:induction false} CollectingAfterAppend(s: Store, dirty: seq<Lsn>, bounds: set<Lsn>, f: Flight, r: Record, s': Store, dirty': seq<Lsn>)
    requires Sized(s) && s' == s.(log := s.log + [r]) && Sized(s') && |dirty| == |s.disk| && DirtyMoves(s, dirty, dirty')
    requires f.Collecting? && CollectingOk(s, dirty, bounds, f) && !r.kind.CheckpointEnd?
    ensures CollectingOk(s', dirty', bounds, f)
  {
    BegunStays(s.log, r, f.c);
    forall t ensures AttSoFar(s'.log, f.c, ToMap(f.att), f.left, t) {
      assert AttSoFar(s.log, f.c, ToMap(f.att), f.left, t);
      AttStays(s.log, r, f.c, ToMap(f.att), f.left, t);
    }
    DptsStay(s, dirty, s', dirty', f.c, ToMap(f.dpt), f.rest);
  }

  lemma {:induction false} CandidateAfterAppend(s: Store, dirty: seq<Lsn>, bounds: set<Lsn>, c: Lsn, low: Lsn, r: Record, s': Store, dirty': seq<Lsn>)
    requires Candidate(s, dirty, bounds, c, low) && s' == s.(log := s.log + [r], durable := s'.durable) && Sized(s')
    requires s.durable <= s'.durable && |dirty| == |s.disk| && DirtyMoves(s, dirty, dirty')
    ensures Candidate(s', dirty', bounds, c, low)
  {
    GoodCheckpointMoves(s, s', c);
    NeedsMove(s, s', c, low);
    forall b | b in bounds ensures NeedsOnlyFrom(s', c, b) { NeedsMove(s, s', c, b); }
  }

  lemma {:induction false} NeedsMove(s: Store, s': Store, c: Lsn, bound: Lsn)
    requires Sized(s) && Sized(s') && s.log <= s'.log && NeedsOnlyFrom(s, c, bound)
    ensures NeedsOnlyFrom(s', c, bound)
  {
    assert Agree(s.log, s'.log, |s.log|);
    FirstEndAgrees(s.log, s'.log, |s.log|, c);
    assert s'.log[FirstEnd(s.log, c)] == s.log[FirstEnd(s.log, c)];
  }

  lemma {:induction false} NamedAfterAppend(s: Store, bounds: set<Lsn>, f: Flight, r: Record, s': Store)
    requires Sized(s) && s' == s.(log := s.log + [r]) && Sized(s') && !TouchesHeader(r)
    requires f.Written? && NamedBy(s, bounds, f)
    ensures NamedBy(s', bounds, f)
  {
    assert s'.log[f.at] == s.log[f.at];
    forall k: nat | f.at < k <= |s'.log| ensures HeaderIs(s', k, f.c) {
      if k <= |s.log| {
        assert HeaderIs(s, k, f.c);
        HeaderAtAgrees(s, s', k);
      } else {
        assert HeaderIs(s, |s.log|, f.c);
        HeaderUnchanged(s.base, s.log, r, s'.log);
      }
    }
    forall b | b in bounds ensures NamedNeeds(s', b, f.at) { NamedNeedsAfterAppend(s, s', r, b, f.at); }
  }

  /** A record of another session, and the page write it describes, leave a checkpoint in flight sound. */
  lemma {:induction false} FlightAfterAppend(s: Store, dirty: seq<Lsn>, bounds: set<Lsn>, f: Flight, r: Record, s': Store, dirty': seq<Lsn>)
    requires Sized(s) && s' == s.(log := s.log + [r]) && Sized(s') && |dirty| == |s.disk| && DirtyMoves(s, dirty, dirty')
    requires FlightLog(s, dirty, bounds, f) && !r.kind.CheckpointEnd? && !TouchesHeader(r)
    ensures FlightLog(s', dirty', bounds, f)
  {
    match f
    case Idle =>
    case Collecting(_, _, _, _, _) => CollectingAfterAppend(s, dirty, bounds, f, r, s', dirty');
    case Logged(c, low) => CandidateAfterAppend(AllDurable(s), dirty, bounds, c, low, r, AllDurable(s'), dirty');
    case Synced(c, low) => CandidateAfterAppend(s, dirty, bounds, c, low, r, s', dirty');
    case Opened(c, low, _) => CandidateAfterAppend(s, dirty, bounds, c, low, r, s', dirty');
    case Written(c, low, _, _) =>
      CandidateAfterAppend(s, dirty, bounds, c, low, r, s', dirty');
      NamedAfterAppend(s, bounds, f, r, s');
  }

  lemma {:induction false} CandidateMoves(s: Store, dirty: seq<Lsn>, bounds: set<Lsn>, c: Lsn, low: Lsn, s': Store, dirty': seq<Lsn>)
    requires Candidate(s, dirty, bounds, c, low) && Sized(s') && Moves(s, s') && s'.log == s.log
    requires |dirty| == |s.disk| && DirtyMoves(s, dirty, dirty')
    ensures Candidate(s', dirty', bounds, c, low)
  {
    GoodCheckpointMoves(s, s', c);
    forall b | b in bounds ensures NeedsOnlyFrom(s', c, b) { NeedsMove(s, s', c, b); }
  }

  lemma {:induction false} NamedMoves(s: Store, bounds: set<Lsn>, f: Flight, s': Store)
    requires Sized(s) && Sized(s') && s'.base == s.base && s'.log == s.log && f.Written? && NamedBy(s, bounds, f)
    requires s'.floor == s.floor || s'.floor <= f.at
    ensures NamedBy(s', bounds, f)
  {
    forall k: nat | f.at < k <= |s'.log| ensures HeaderIs(s', k, f.c) { assert HeaderIs(s, k, f.c); }
    forall b | b in bounds ensures NamedNeeds(s', b, f.at) { assert NamedNeeds(s, b, f.at); }
  }

  /** So do a sync of the log and the flush of a page. */
  lemma {:induction false} FlightMoves(s: Store, dirty: seq<Lsn>, bounds: set<Lsn>, f: Flight, s': Store, dirty': seq<Lsn>)
    requires Sized(s) && Sized(s') && Moves(s, s') && s'.log == s.log && s'.floor == s.floor
    requires |dirty| == |s.disk| && DirtyMoves(s, dirty, dirty') && FlightLog(s, dirty, bounds, f)
    ensures FlightLog(s', dirty', bounds, f)
  {
    match f
    case Idle =>
    case Collecting(_, _, _, _, _) =>
      DptsStay(s, dirty, s', dirty', f.c, ToMap(f.dpt), f.rest);
    case Logged(c, low) => CandidateMoves(AllDurable(s), dirty, bounds, c, low, AllDurable(s'), dirty');
    case Synced(c, low) => CandidateMoves(s, dirty, bounds, c, low, s', dirty');
    case Opened(c, low, _) => CandidateMoves(s, dirty, bounds, c, low, s', dirty');
    case Written(c, low, _, _) =>
      CandidateMoves(s, dirty, bounds, c, low, s', dirty');
      NamedMoves(s, bounds, f, s');
  }

  lemma {:induction false} CandidateTruncated(s: Store, dirty: seq<Lsn>, bounds: set<Lsn>, c: Lsn, low: Lsn, bound: Lsn, s': Store)
    requires Candidate(s, dirty, bounds, c, low) && bound in bounds && Sized(s')
    requires s' == s.(truncated := s'.truncated, floor := s'.floor) && s'.truncated < bound
    ensures Candidate(s', dirty, bounds, c, low)
  {
    TruncatedStillGood(s, s', c, bound);
    forall b | b in bounds ensures NeedsOnlyFrom(s', c, b) { NeedsMove(s, s', c, b); }
  }

  lemma {:induction false} CollectingTruncated(s: Store, dirty: seq<Lsn>, bounds: set<Lsn>, f: Flight, bound: Lsn, s': Store)
    requires |dirty| == |s.disk| && f.Collecting? && CollectingOk(s, dirty, bounds, f) && bound in bounds
    requires s' == s.(truncated := s'.truncated, floor := s'.floor) && s'.truncated < bound
    ensures CollectingOk(s', dirty, bounds, f)
  {
    forall p: PageId ensures DptSoFar(s', dirty, f.c, ToMap(f.dpt), f.rest, p) {
      assert DptSoFar(s, dirty, f.c, ToMap(f.dpt), f.rest, p);
    }
  }

  /** And the truncation of an earlier checkpoint. */
  lemma {:induction false} FlightTruncated(s: Store, dirty: seq<Lsn>, bounds: set<Lsn>, f: Flight, bound: Lsn, s': Store)
    requires Sized(s) && Sized(s') && |dirty| == |s.disk| && FlightLog(s, dirty, bounds, f) && bound in bounds
    requires s' == s.(truncated := s'.truncated, floor := s'.floor) && s'.truncated < bound
    requires f.Written? ==> s'.floor <= f.at
    ensures FlightLog(s', dirty, bounds, f)
  {
    match f
    case Idle =>
    case Collecting(_, _, _, _, _) => CollectingTruncated(s, dirty, bounds, f, bound, s');
    case Logged(c, low) => CandidateTruncated(AllDurable(s), dirty, bounds, c, low, bound, AllDurable(s'));
    case Synced(c, low) => CandidateTruncated(s, dirty, bounds, c, low, bound, s');
    case Opened(c, low, _) => CandidateTruncated(s, dirty, bounds, c, low, bound, s');
    case Written(c, low, _, _) =>
      CandidateTruncated(s, dirty, bounds, c, low, bound, s');
      NamedMoves(s, bounds, f, s');
  }

  lemma {:induction false} FewerBounds(s: Store, dirty: seq<Lsn>, bounds: set<Lsn>, f: Flight, bounds': set<Lsn>)
    requires Sized(s) && |dirty| == |s.disk| && FlightLog(s, dirty, bounds, f) && bounds' <= bounds
    ensures FlightLog(s, dirty, bounds', f)
  {
  }

  lemma {:induction false} FinishedDurablyMoves(s: Store, running: set<TxnId>, s': Store, t: TxnId)
    requires Sized(s) && Sized(s') && Moves(s, s') && WellFormed(s'.base, s'.log) && FinishedDurably(s, running, t)
    requires s.log <= s'.log && NoneButThese(s.log, s'.log, running)
    ensures FinishedDurably(s', running, t)
  {
    if t !in running && t != CHECKPOINT_TXN {
      assert s'.log[..|s.log|] == s.log;
      QuietTail(s'.base, s'.log, |s.log|, t);
      if LastLsn(s.log, t) > 0 { DurablyClosedMoves(s, s', t); }
    }
  }

  /** Only these transactions, and checkpoints, have logged anything since. */
  predicate NoneButThese(log: seq<Record>, log': seq<Record>, running: set<TxnId>)
  {
    forall i :: |log| <= i < |log'| ==> log'[i].txn == CHECKPOINT_TXN || log'[i].txn in running
  }

  lemma {:induction false} AllFinishedDurablyMove(s: Store, running: set<TxnId>, s': Store)
    requires Sized(s) && Sized(s') && Moves(s, s') && WellFormed(s'.base, s'.log) && forall t :: FinishedDurably(s, running, t)
    requires s.log <= s'.log && NoneButThese(s.log, s'.log, running)
    ensures forall t :: FinishedDurably(s', running, t)
  {
    forall t ensures FinishedDurably(s', running, t) {
      assert FinishedDurably(s, running, t);
      FinishedDurablyMoves(s, running, s', t);
    }
  }

  /** One transaction moves on to `x`, with or without a record. */
  lemma {:induction false} FlightTxnsStep(s: Store, active: map<TxnId, Txn>, nextTxn: TxnId, f: Flight, s': Store, t: TxnId, x: Txn)
    requires Sized(s) && Sized(s') && Moves(s, s') && WellFormed(s'.base, s'.log) && FlightTxns(s, active, nextTxn, f)
    requires s.log <= s'.log && NoneButThese(s.log, s'.log, active.Keys) && t in active
    requires x.state.Committing? ==> f.Idle? || (f.Written? && t == f.t)
    requires IsNaming(f) && t == f.t ==> x.state.Growing? || x.state.Committing?
    ensures FlightTxns(s', active[t := x], nextTxn, f)
  {
    var active' := active[t := x];
    assert active'.Keys == active.Keys;
    if !f.Idle? {
      forall o ensures OnlyNames(active', f, o) { assert OnlyNames(active, f, o); }
    }
    if f.Synced? || IsNaming(f) { AllFinishedDurablyMove(s, active.Keys, s'); }
  }

  /** A checkpoint record, a sync or a page write. */
  lemma {:induction false} FlightTxnsMove(s: Store, active: map<TxnId, Txn>, nextTxn: TxnId, f: Flight, s': Store)
    requires Sized(s) && Sized(s') && Moves(s, s') && WellFormed(s'.base, s'.log) && FlightTxns(s, active, nextTxn, f)
    requires s.log <= s'.log && NoneButThese(s.log, s'.log, active.Keys)
    ensures FlightTxns(s', active, nextTxn, f)
  {
    if f.Synced? || IsNaming(f) { AllFinishedDurablyMove(s, active.Keys, s'); }
  }

  // ---- Collecting the snapshot ----

  lemma {:induction false} NotCommitted(log: seq<Record>, t: TxnId, state: TxnState)
    requires StateOk(log, t, state) && !state.Committing?
    ensures !Committed(log, t)
  {
  }

  lemma {:induction false} NotCommittedBefore(log: seq<Record>, n: nat, t: TxnId)
    requires n <= |log| && !Committed(log, t)
    ensures !Committed(log[..n], t)
  {
    assert forall i :: 0 <= i < n ==> log[..n][i] == log[i];
  }

  /** At the CheckpointBegin record nothing has been read, and everybody who is not running is finished. */
  lemma {:induction false} BeginsToCollect(s: Store, v: Volatile, r: Record, s': Store, pages: set<PageId>)
    requires Sized(s) && TxnsOk(s.log, v.active, v.nextTxn) && |v.dirty| == |s.disk| && forall b :: b in v.bounds ==> BoundOk(s, v.dirty, b)
    requires r.kind.CheckpointBegin? && r.lsn == |s.log| + 1 < Pow256(CHECKPOINT_LEN) && s' == s.(log := s.log + [r])
    requires forall p: PageId :: p in pages <==> p < |s.disk|
    ensures CollectingOk(s', v.dirty, v.bounds, Collecting(r.lsn, [], v.active.Keys, [], pages))
  {
    var f := Collecting(r.lsn, [], v.active.Keys, [], pages);
    assert s'.log[|s.log|] == r && s'.log[..|s.log|] == s.log;
    forall b | b in v.bounds ensures b <= r.lsn { assert BoundOk(s, v.dirty, b); }
    forall t ensures AttSoFar(s'.log, f.c, ToMap(f.att), f.left, t) { assert TxnOk(s.log, v.active, t); }
  }

  lemma {:induction false} ToMapMore<K, V>(pairs: seq<(K, V)>, x: (K, V))
    ensures ToMap(pairs + [x]) == ToMap(pairs)[x.0 := x.1]
  {
    assert Front(pairs + [x]) == pairs;
  }

  lemma {:induction false} ToMapEntry<K, V>(pairs: seq<(K, V)>, k: K)
    requires k in ToMap(pairs)
    ensures (k, ToMap(pairs)[k]) in pairs
  {
    if Last(pairs).0 != k { ToMapEntry(Front(pairs), k); }
  }

  lemma {:induction false} ReadNow(base: seq<PageData>, log: seq<Record>, c: Lsn, t: TxnId, x: Txn)
    requires WellFormed(base, log) && 0 < c <= |log| && ActiveTxn(log, t, x) && !x.state.Committing?
    ensures t != CHECKPOINT_TXN && LastLsn(log, t) > 0 && !Committed(log[..c - 1], t)
    ensures NoRecords(log, c - 1, |log|, t) ==> LastLsn(log, t) == LastLsn(log[..c - 1], t)
  {
    NotCommitted(log, t, x.state);
    NotCommittedBefore(log, c - 1, t);
    if NoRecords(log, c - 1, |log|, t) { QuietTail(base, log, c - 1, t); }
  }

  lemma {:induction false} OneMoreRead(log: seq<Record>, c: Lsn, att: map<TxnId, Lsn>, left: set<TxnId>, t: TxnId, last: Lsn, o: TxnId)
    requires 0 < c <= |log| && AttSoFar(log, c, att, left, o)
    requires t != CHECKPOINT_TXN && LastLsn(log, t) > 0 && !Committed(log[..c - 1], t)
    requires NoRecords(log, c - 1, |log|, t) ==> last == LastLsn(log[..c - 1], t)
    ensures AttSoFar(log, c, att[t := last], left - {t}, o)
  {
  }

  /** One turn of the loop of `active_snapshot`. */
  lemma {:induction false} CollectActiveKeeps(s: Store, v: Volatile, t: TxnId, f: Flight)
    requires Sized(s) && WellFormed(s.base, s.log) && |v.dirty| == |s.disk| && v.flight.Collecting? && t in v.flight.left
    requires CollectingOk(s, v.dirty, v.bounds, v.flight) && t in v.active && TxnOk(s.log, v.active, t) && !v.active[t].state.Committing?
    requires f == v.flight.(att := v.flight.att + [(t, LastLsn(s.log, t))], left := v.flight.left - {t})
    ensures CollectingOk(s, v.dirty, v.bounds, f)
  {
    var c, att, left, last := f.c, ToMap(v.flight.att), v.flight.left, LastLsn(s.log, t);
    ToMapMore(v.flight.att, (t, last));
    ReadNow(s.base, s.log, c, t, v.active[t]);
    var att', left' := ToMap(f.att), f.left;
    forall o ensures AttSoFar(s.log, c, att', left', o) {
      assert AttSoFar(s.log, c, att, left, o);
      OneMoreRead(s.log, c, att, left, t, last, o);
    }
  }

  /** What `dirty_page_table` keeps of one frame. */
  function WithDirty(dpt: seq<(PageId, Lsn)>, p: PageId, since: Lsn): seq<(PageId, Lsn)>
  {
    if since != 0 then dpt + [(p, since)] else dpt
  }

  lemma {:induction false} CleanIsCovered(s: Store, v: Volatile, p: PageId, c: Lsn)
    requires Live(s, v) && p < |s.disk| && v.dirty[p] == 0 && c <= |s.log|
    ensures Covered(s.log, s.disk[p], p, c)
  {
    assert DirtyPageOk(s, v.cache, v.dirty, p);
    PageLsnIsPast(s.base, s.log, p);
  }

  /** One turn of the loop of `dirty_page_table`. */
  lemma {:induction false} CollectDirtyKeeps(s: Store, v: Volatile, p: PageId, f: Flight)
    requires Live(s, v) && v.flight.Collecting? && p in v.flight.rest && p < |s.disk|
    requires CollectingOk(s, v.dirty, v.bounds, v.flight) && forall b :: b in v.bounds ==> BoundOk(s, v.dirty, b)
    requires f == v.flight.(dpt := WithDirty(v.flight.dpt, p, v.dirty[p]), rest := v.flight.rest - {p})
    ensures CollectingOk(s, v.dirty, v.bounds, f)
  {
    var dpt, dpt' := ToMap(v.flight.dpt), ToMap(f.dpt);
    assert DptSoFar(s, v.dirty, f.c, dpt, v.flight.rest, p);
    ToMapMore(v.flight.dpt, (p, v.dirty[p]));
    assert DirtyPageOk(s, v.cache, v.dirty, p);
    if v.dirty[p] == 0 { CleanIsCovered(s, v, p, f.c); }
    forall b | b in v.bounds && v.dirty[p] > 0 ensures b <= v.dirty[p] { assert BoundOk(s, v.dirty, b); }
    forall q: PageId ensures DptSoFar(s, v.dirty, f.c, dpt', f.rest, q) {
      assert DptSoFar(s, v.dirty, f.c, dpt, v.flight.rest, q);
    }
  }

  // ---- Logging the snapshot ----

  /** Everything has been read, each entry at its own moment. */
  predicate IsSnapshot(r: Record, log: seq<Record>, f: Flight)
  {
    && f.Collecting? && f.left == {} && f.rest == {}
    && r == Record(|log| + 1, LastLsn(log, CHECKPOINT_TXN), CHECKPOINT_TXN, CheckpointEnd(f.att, f.dpt))
  }

  lemma {:induction false} SnapshotIsRight(s: Store, dirty: seq<Lsn>, bounds: set<Lsn>, f: Flight, r: Record, s': Store)
    requires Sized(s) && |dirty| == |s.disk| && IsSnapshot(r, s.log, f) && CollectingOk(s, dirty, bounds, f)
    requires s' == s.(log := s.log + [r]) && Sized(s')
    ensures s'.log[|s.log|] == r && SnapshotOk(s', |s.log|)
  {
    var e, dpt := |s.log|, ToMap(f.dpt);
    assert s'.log[e] == r && s'.log[..e] == s.log;
    forall p: PageId ensures DirtyEntryOk(s', e, dpt, p) {
      assert DptSoFar(s, dirty, f.c, dpt, f.rest, p);
      if p in dpt { CoveredMoves(s.log, s'.log, e, s.disk[p], s.disk[p], p, dpt[p]); }
    }
    forall t | t in ToMap(f.att) ensures t != CHECKPOINT_TXN && LastLsn(s.log, t) > 0 {
      assert AttSoFar(s.log, f.c, ToMap(f.att), f.left, t);
    }
  }

  lemma {:induction false} AttIsRight(log: seq<Record>, f: Flight, r: Record, next: seq<Record>)
    requires IsSnapshot(r, log, f) && next == log + [r] && 0 < f.c <= |log| && forall t :: AttSoFar(log, f.c, ToMap(f.att), f.left, t)
    ensures next[|log|] == r && AttOk(next, f.c - 1, |log|)
  {
    var b := f.c - 1;
    assert next[|log|] == r && next[..b] == log[..b];
    assert forall j :: 0 <= j < |log| ==> next[j] == log[j];
    forall t | t != CHECKPOINT_TXN ensures AttEntryOk(next, b, |log|, t) {
      assert AttSoFar(log, f.c, ToMap(f.att), f.left, t);
      assert NoRecords(next, b, |log|, t) ==> NoRecords(log, b, |log|, t);
    }
  }

  lemma {:induction false} PagesAreReady(s: Store, dirty: seq<Lsn>, bounds: set<Lsn>, f: Flight, r: Record, s': Store)
    requires Sized(s) && |dirty| == |s.disk| && IsSnapshot(r, s.log, f) && CollectingOk(s, dirty, bounds, f)
    requires s' == s.(log := s.log + [r], durable := |s.log| + 1)
    ensures forall p: PageId :: p < |s'.disk| ==> PageReady(s', ToMap(f.dpt), f.c, p)
  {
    assert Agree(s.log, s'.log, |s.log|);
    forall p: PageId | p < |s'.disk| ensures PageReady(s', ToMap(f.dpt), f.c, p) {
      assert DptSoFar(s, dirty, f.c, ToMap(f.dpt), f.rest, p);
      if p !in ToMap(f.dpt) { CoveredMoves(s.log, s'.log, |s.log|, s.disk[p], s.disk[p], p, f.c); }
    }
  }

  lemma {:induction false} SnapshotIsFirst(log: seq<Record>, r: Record, c: Lsn)
    requires Begun(log, c) && r.kind.CheckpointEnd?
    ensures FirstEnd(log + [r], c) == |log| && (log + [r])[|log|] == r && (log + [r])[c - 1] == log[c - 1]
  {
    var next := log + [r];
    assert next[|log|] == r && forall j :: 0 <= j < |log| ==> next[j] == log[j];
  }

  /** Once the snapshot is durable, recovery may start from the checkpoint, whenever its entries were read. */
  lemma {:induction false} SnapshotIsUsable(s: Store, dirty: seq<Lsn>, bounds: set<Lsn>, f: Flight, r: Record, s': Store)
    requires Sized(s) && |dirty| == |s.disk| && IsSnapshot(r, s.log, f) && CollectingOk(s, dirty, bounds, f)
    requires s' == s.(log := s.log + [r], durable := |s.log| + 1) && Sized(s')
    ensures GoodCheckpoint(s', f.c)
  {
    SnapshotIsFirst(s.log, r, f.c);
    AttIsRight(s.log, f, r, s'.log);
    PagesAreReady(s, dirty, bounds, f, r, s');
  }

  lemma {:induction false} SnapshotNeeds(s: Store, f: Flight, r: Record, s': Store, low: Lsn)
    requires IsSnapshot(r, s.log, f) && Begun(s.log, f.c)
    requires s' == s.(log := s.log + [r], durable := |s.log| + 1) && Sized(s')
    requires 0 < low <= f.c && forall p :: p in ToMap(f.dpt) ==> low <= ToMap(f.dpt)[p]
    ensures NeedsOnlyFrom(s', f.c, low)
  {
    SnapshotIsFirst(s.log, r, f.c);
  }

  lemma {:induction false} LowestIsLow(s: Store, dirty: seq<Lsn>, bounds: set<Lsn>, f: Flight, low: Lsn)
    requires Sized(s) && |dirty| == |s.disk| && f.Collecting? && f.rest == {} && CollectingOk(s, dirty, bounds, f)
    requires low <= f.c && (forall x :: x in f.dpt ==> low <= x.1) && (low == f.c || exists x :: x in f.dpt && low == x.1)
    ensures 0 < low && (forall p :: p in ToMap(f.dpt) ==> low <= ToMap(f.dpt)[p])
    ensures forall p: PageId :: p < |dirty| && dirty[p] > 0 ==> low <= dirty[p]
  {
    var dpt := ToMap(f.dpt);
    forall p | p in dpt ensures low <= dpt[p] && 0 < dpt[p] {
      ToMapEntry(f.dpt, p);
      assert DptSoFar(s, dirty, f.c, dpt, f.rest, p);
    }
    forall p: PageId | p < |dirty| && dirty[p] > 0 ensures low <= dirty[p] {
      assert DptSoFar(s, dirty, f.c, dpt, f.rest, p);
    }
  }

  /** The bound that `write_checkpoint_record` computes is safe with respect to this checkpoint, and so
      are those of earlier ones. */
  lemma {:induction false} SnapshotIsCandidate(s: Store, dirty: seq<Lsn>, bounds: set<Lsn>, f: Flight, r: Record, s': Store, low: Lsn)
    requires Sized(s) && |dirty| == |s.disk| && IsSnapshot(r, s.log, f) && CollectingOk(s, dirty, bounds, f)
    requires s' == s.(log := s.log + [r]) && Sized(s') && forall b :: b in bounds ==> 0 < b
    requires 0 < low <= f.c && (forall p :: p in ToMap(f.dpt) ==> low <= ToMap(f.dpt)[p])
    requires forall p: PageId :: p < |dirty| && dirty[p] > 0 ==> low <= dirty[p]
    ensures Candidate(AllDurable(s'), dirty, bounds, f.c, low)
  {
    var d := AllDurable(s');
    SnapshotIsUsable(s, dirty, bounds, f, r, d);
    SnapshotNeeds(s, f, r, d, low);
    forall b | b in bounds ensures NeedsOnlyFrom(d, f.c, b) { SnapshotNeeds(s, f, r, d, b); }
  }

  /** `flush_log_all`: the checkpoint may be named, and everybody who is not running is durably finished. */
  lemma {:induction false} SyncedIsCandidate(s: Store, v: Volatile, s': Store)
    requires Sized(s) && |v.dirty| == |s.disk| && v.flight.Logged? && FlightLog(s, v.dirty, v.bounds, v.flight)
    requires TxnsOk(s.log, v.active, v.nextTxn) && FlightTxns(s, v.active, v.nextTxn, v.flight) && s' == AllDurable(s)
    ensures FlightLog(s', v.dirty, v.bounds, Synced(v.flight.c, v.flight.low))
    ensures FlightTxns(s', v.active, v.nextTxn, Synced(v.flight.c, v.flight.low))
  {
    var f := Synced(v.flight.c, v.flight.low);
    assert s'.log[..s'.durable] == s'.log;
    forall t ensures FinishedDurably(s', v.active.Keys, t) && OnlyNames(v.active, f, t) {
      assert TxnOk(s.log, v.active, t);
      assert OnlyNames(v.active, v.flight, t);
    }
  }

  // ---- The transaction that names the checkpoint in the header ----

  lemma {:induction false} NamerBegins(s: Store, v: Volatile, r: Record, s': Store, active': map<TxnId, Txn>)
    requires Sized(s) && |v.dirty| == |s.disk| && v.flight.Synced? && FlightTxns(s, v.active, v.nextTxn, v.flight)
    requires s' == s.(log := s.log + [r]) && Sized(s') && WellFormed(s'.base, s'.log) && r.txn == v.nextTxn
    requires active' == v.active[r.txn := Txn(|s.log| + 1, Growing)] && v.nextTxn < CHECKPOINT_TXN
    ensures FlightTxns(s', active', v.nextTxn + 1, Opened(v.flight.c, v.flight.low, r.txn))
  {
    var f := Opened(v.flight.c, v.flight.low, r.txn);
    forall t ensures FinishedDurably(s, active'.Keys, t) && OnlyNames(active', f, t) {
      assert FinishedDurably(s, v.active.Keys, t);
      assert OnlyNames(v.active, v.flight, t);
    }
    AllFinishedDurablyMove(s, active'.Keys, s');
  }

  /** The logged write of `set_last_checkpoint_lsn`. */
  function HeaderWrite(log: seq<Record>, cache: seq<Page>, t: TxnId, c: Lsn): Record
    requires 0 < |cache|
  {
    var before := cache[HEADER_PAGE].data[CHECKPOINT_AT..CHECKPOINT_AT + CHECKPOINT_LEN];
    Record(|log| + 1, LastLsn(log, t), t, Update(HEADER_PAGE, CHECKPOINT_AT, before, LeBytes(c, CHECKPOINT_LEN)))
  }

  /** Nobody else can have an unfinished write on the header bytes. */
  lemma {:induction false} HeaderIsStrict(s: Store, r: Record)
    requires CrashSafe(s) && HeaderSettled(s, -1) && SetsHeader(r)
    ensures Strict(s.log, r)
  {
    forall t, u, i: nat | t != r.txn && u in Pending(s.log, t) && Touches(r, r.kind.page, i)
      ensures !Touches(s.log[u - 1], r.kind.page, i)
    {
      if Touches(s.log[u - 1], r.kind.page, i) {
        PendingIsOwn(s.base, s.log, t, u);
        assert TouchesHeader(s.log[u - 1]);
        ClosedStays(s.base, s.log, s.durable, t);
      }
    }
  }

  lemma {:induction false} HeaderWriteIsAdmissible(s: Store, v: Volatile, r: Record, c: Lsn)
    requires Live(s, v) && HeaderSettled(s, -1) && Open(s.log, r.txn) && r == HeaderWrite(s.log, v.cache, r.txn, c)
    ensures Admissible(s.base, s.log, r)
  {
    HeaderIsStrict(s, r);
    WriteIsAdmissible(s, v, r);
  }

  lemma {:induction false} HeaderWriteIsSafe(s: Store, v: Volatile, r: Record, low: Lsn, c: Lsn, s': Store, v': Volatile)
    requires Live(s, v) && Admissible(s.base, s.log, r) && r == HeaderWrite(s.log, v.cache, r.txn, c)
    requires Candidate(s, v.dirty, v.bounds, c, low) && Appends(s, v, r, s', v')
    ensures Live(s', v') && HeaderIs(s', |s'.log|, c)
  {
    AppendShape(s.base, s.log, r);
    LeRoundTrip(c, CHECKPOINT_LEN);
    GoodCheckpointMoves(s, s', c);
    AppendSafe(s, s', r);
    LiveAppend(s, v, r, s', v');
    HeaderSet(s.base, s.log, r, s'.log);
  }

  lemma {:induction false} NamedOnce(s: Store, dirty: seq<Lsn>, bounds: set<Lsn>, r: Record, s': Store, f: Flight)
    requires Sized(s) && s.floor <= |s.log| && s' == s.(log := s.log + [r]) && Sized(s')
    requires f.Written? && f.at == |s.log| && r.txn == f.t && r.kind.Update? && f.c <= |s.log|
    requires HeaderIs(s', |s'.log|, f.c) && forall b :: b in bounds ==> BoundOk(s, dirty, b)
    ensures NamedBy(s', bounds, f)
  {
    forall k: nat | f.at < k <= |s'.log| ensures HeaderIs(s', k, f.c) { assert k == |s'.log|; }
    forall b | b in bounds ensures NamedNeeds(s', b, f.at) {
      assert BoundOk(s, dirty, b);
      NamedNeedsAfterAppend(s, s', r, b, f.at);
    }
  }

  lemma {:induction false} NamedInCache(cache: seq<Page>, log: seq<Record>, t: TxnId, c: Lsn)
    requires 0 < |cache| && c < Pow256(CHECKPOINT_LEN)
    ensures CheckpointLsn(Stamped(cache, HeaderWrite(log, cache, t, c))[HEADER_PAGE].data) == c
  {
    var r := HeaderWrite(log, cache, t, c);
    var d := Stamped(cache, r)[HEADER_PAGE].data;
    LeRoundTrip(c, CHECKPOINT_LEN);
    assert d[CHECKPOINT_AT..CHECKPOINT_AT + CHECKPOINT_LEN] == r.kind.after;
  }

  /** Below the oldest unfinished transaction's first record everything is durably finished, and the
      header transaction itself has the highest id so far. */
  lemma {:induction false} BoundIsDisposable(s: Store, active: map<TxnId, Txn>, nextTxn: TxnId, k: nat, bound: Lsn)
    requires Sized(s) && TxnsOk(s.log, active, nextTxn) && forall t :: FinishedDurably(s, active.Keys, t)
    requires 0 < bound <= k + 1 <= s.durable && s.log[k].txn == nextTxn - 1 && s.log[k].txn != CHECKPOINT_TXN
    requires forall t :: t in active ==> bound <= active[t].begin
    ensures Disposable(s, bound)
  {
    forall i | 0 <= i < bound - 1 && s.log[i].txn != CHECKPOINT_TXN
      ensures DurablyClosed(s, s.log[i].txn) && HigherIdSurvives(s.log, bound - 1, s.durable, s.log[i].txn)
    {
      assert TxnOk(s.log, active, s.log[i].txn);
      assert FinishedDurably(s, active.Keys, s.log[i].txn);
      assert s.log[i].txn <= s.log[k].txn;
    }
  }

  // ---- What the checkpoint computes ----

  function PagesBelow(n: nat): (pages: set<PageId>)
    ensures forall p: PageId :: p in pages <==> p < n
  {
    if n == 0 then {} else PagesBelow(n - 1) + {n - 1}
  }

  /** The smallest of `c` and the LSNs in the table. */
  method Lowest(dpt: seq<(PageId, Lsn)>, c: Lsn) returns (low: Lsn)
    ensures low <= c && forall x :: x in dpt ==> low <= x.1
    ensures low == c || exists x :: x in dpt && low == x.1
  {
    low := c;
    for i := 0 to |dpt|
      invariant low <= c && forall x :: x in dpt[..i] ==> low <= x.1
      invariant low == c || exists x :: x in dpt && low == x.1
    {
      assert dpt[i] in dpt;
      if dpt[i].1 < low { low := dpt[i].1; }
    }
    assert dpt[..|dpt|] == dpt;
  }

  /** The smaller of `low` and `earliest_active_begin_lsn`. */
  method EarliestBegin(active: map<TxnId, Txn>, low: Lsn) returns (bound: Lsn)
    requires 0 < low && forall t :: t in active ==> 0 < active[t].begin
    ensures 0 < bound <= low && forall t :: t in active ==> bound <= active[t].begin
    ensures bound == low || exists t :: t in active && bound == active[t].begin
  {
    bound := low;
    var left := active.Keys;
    while left != {}
      invariant left <= active.Keys && 0 < bound <= low
      invariant forall t :: t in active && t !in left ==> bound <= active[t].begin
      invariant bound == low || exists t :: t in active && bound == active[t].begin
      decreases |left|
    {
      var t :| t in left;
      if active[t].begin < bound { bound := active[t].begin; }
      left := left - {t};
    }
  }

  lemma {:induction false} BeginsArePositive(log: seq<Record>, active: map<TxnId, Txn>, nextTxn: TxnId)
    requires TxnsOk(log, active, nextTxn)
    ensures forall t :: t in active ==> 0 < active[t].begin
  {
    forall t | t in active ensures 0 < active[t].begin { assert TxnOk(log, active, t); }
  }
}
