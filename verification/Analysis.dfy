/** The analysis pass of recovery, as folds over the log, and what it finds from a usable checkpoint. */
module Analysis {
  import opened LogRecords
  import opened History
  import opened CrashSafety

  /** Transaction table: newest LSN, and whether a commit record has been seen. */
  type Att = map<TxnId, (Lsn, bool)>
  type Dpt = map<PageId, Lsn>

  function AttStep(att: Att, r: Record): Att
  {
    var seen := r.txn in att && att[r.txn].1;
    match r.kind
    case CheckpointBegin => att
    case CheckpointEnd(_, _) => att
    case End => att - {r.txn}
    case Commit => att[r.txn := (r.lsn, true)]
    case Begin => att[r.txn := (r.lsn, false)]
    case _ => att[r.txn := (r.lsn, seen)]
  }

  function DptStep(dpt: Dpt, r: Record): Dpt
  {
    if (r.kind.Writes() || r.kind.AllocPage?) && r.kind.page !in dpt then dpt[r.kind.page := r.lsn] else dpt
  }

  function AttScan(att: Att, log: seq<Record>, from: nat, upto: nat): Att
    requires from <= upto <= |log|
  {
    if from == upto then att else AttStep(AttScan(att, log, from, upto - 1), log[upto - 1])
  }

  function DptScan(dpt: Dpt, log: seq<Record>, from: nat, upto: nat): Dpt
    requires from <= upto <= |log|
  {
    if from == upto then dpt else DptStep(DptScan(dpt, log, from, upto - 1), log[upto - 1])
  }

  /** Index of the first record analysis reads. */
  function StartIndex(c: Lsn): nat
  {
    if c == 0 then 0 else c - 1
  }

  /** The tables before the scan: the snapshot of the first CheckpointEnd, if there is one. */
  function SeedAtt(log: seq<Record>, c: Lsn): (att: Att)
    requires c <= |log|
    ensures forall t :: t in att ==> !att[t].1
  {
    var e := FirstEnd(log, StartIndex(c));
    if e == |log| then map[] else
      var m := ToMap(log[e].kind.att);
      map t | t in m :: (m[t], false)
  }

  function SeedDpt(log: seq<Record>, c: Lsn): Dpt
    requires c <= |log|
  {
    var e := FirstEnd(log, StartIndex(c));
    if e == |log| then map[] else ToMap(log[e].kind.dpt)
  }

  function FoundAtt(log: seq<Record>, c: Lsn): Att
    requires c <= |log|
  {
    AttScan(SeedAtt(log, c), log, StartIndex(c), |log|)
  }

  function FoundDpt(log: seq<Record>, c: Lsn): Dpt
    requires c <= |log|
  {
    DptScan(SeedDpt(log, c), log, StartIndex(c), |log|)
  }

  // ---- The transaction table ----

  lemma {:induction false} QuietTail(base: seq<PageData>, log: seq<Record>, n: nat, t: TxnId)
    requires WellFormed(base, log) && n <= |log| && NoRecords(log, n, |log|, t)
    ensures WellFormed(base, log[..n])
    ensures LastLsn(log, t) == LastLsn(log[..n], t)
    ensures Committed(log, t) == Committed(log[..n], t)
    ensures Pending(log, t) == Pending(log[..n], t)
    decreases |log|
  {
    if n == |log| {
      assert log[..n] == log;
    } else {
      var pre := Front(log);
      assert pre[..n] == log[..n];
      assert log[|log| - 1].txn != t;
      assert forall j :: n <= j < |pre| ==> pre[j] == log[j];
      QuietTail(base, pre, n, t);
      PendingStep(base, log, t);
      CommittedStep(log, t);
    }
  }

  lemma {:induction false} ScanQuiet(att: Att, log: seq<Record>, from: nat, upto: nat, t: TxnId)
    requires from <= upto <= |log| && NoRecords(log, from, upto, t)
    ensures var a := AttScan(att, log, from, upto);
            (t in a <==> t in att) && (t in a ==> a[t] == att[t])
    decreases upto
  {
    if from < upto {
      assert log[upto - 1].txn != t;
      ScanQuiet(att, log, from, upto - 1, t);
    }
  }

  /** Records carry their own position, and checkpoint records belong to the checkpointer alone. */
  predicate Numbered(log: seq<Record>)
  {
    forall i :: 0 <= i < |log| ==>
      && log[i].lsn == i + 1
      && (log[i].txn == CHECKPOINT_TXN <==> log[i].kind.CheckpointBegin? || log[i].kind.CheckpointEnd?)
  }

  lemma {:induction false} WellFormedIsNumbered(base: seq<PageData>, log: seq<Record>)
    requires WellFormed(base, log)
    ensures Numbered(log)
  {
    forall i | 0 <= i < |log|
      ensures log[i].lsn == i + 1
      ensures log[i].txn == CHECKPOINT_TXN <==> log[i].kind.CheckpointBegin? || log[i].kind.CheckpointEnd?
    {
      RecordWasAdmissible(base, log, i);
    }
  }

  /** A scanned transaction, whose newest record is at index `k`, is in the table with that LSN
      unless that record is its End. */
  lemma {:induction false} ScanSees(att: Att, log: seq<Record>, from: nat, upto: nat, t: TxnId, k: nat)
    requires Numbered(log) && from <= k < upto <= |log| && t != CHECKPOINT_TXN && log[k].txn == t
    requires NoRecords(log, k + 1, upto, t)
    ensures var a := AttScan(att, log, from, upto);
            (t in a ==> a[t].0 == k + 1) && (t !in a ==> log[k].kind.End?)
    decreases upto
  {
    if k < upto - 1 {
      assert log[upto - 1].txn != t;
      ScanSees(att, log, from, upto - 1, t, k);
    }
  }

  lemma {:induction false} FlagMeansCommitted(att: Att, log: seq<Record>, from: nat, upto: nat, t: TxnId)
    requires from <= upto <= |log| && (t in att ==> !att[t].1)
    ensures var a := AttScan(att, log, from, upto); t in a && a[t].1 ==> Committed(log, t)
    decreases upto
  {
    if from < upto {
      FlagMeansCommitted(att, log, from, upto - 1, t);
    }
  }

  lemma {:induction false} OnlyEndAfterCommit(base: seq<PageData>, log: seq<Record>, k: nat, i: nat)
    requires WellFormed(base, log) && k < i < |log| && log[k].kind.Commit? && log[i].txn == log[k].txn
    ensures log[i].kind.End?
  {
    RecordWasAdmissible(base, log, k);
    RecordWasAdmissible(base, log, i);
    assert log[..i][k] == log[k];
    assert !Open(log[..i], log[k].txn) && Committed(log[..i], log[k].txn);
  }

  /** After a commit record only an End can follow, so the table never shows a committed transaction as a loser. */
  lemma {:induction false} CommitIsSeen(base: seq<PageData>, att: Att, log: seq<Record>, from: nat, upto: nat, t: TxnId, k: nat)
    requires WellFormed(base, log) && from <= upto <= |log| && k < upto && log[k].txn == t && log[k].kind.Commit?
    requires k < from ==> t !in att
    ensures var a := AttScan(att, log, from, upto); t in a ==> a[t].1
    decreases upto
  {
    if from < upto && k < upto - 1 {
      CommitIsSeen(base, att, log, from, upto - 1, t, k);
      if log[upto - 1].txn == t { OnlyEndAfterCommit(base, log, k, upto - 1); }
    }
  }

  lemma {:induction false} EndMeansClosed(base: seq<PageData>, log: seq<Record>, t: TxnId)
    requires WellFormed(base, log) && LastLsn(log, t) > 0 && log[LastLsn(log, t) - 1].kind.End?
    ensures Closed(log, t)
  {
    var l := LastLsn(log, t);
    QuietTail(base, log, l, t);
    var upTo := log[..l];
    assert Front(upTo) == log[..l - 1] && Last(upTo) == log[l - 1];
    PendingStep(base, upTo, t);
  }

  lemma {:induction false} ScanIgnoresCheckpointer(att: Att, log: seq<Record>, from: nat, upto: nat)
    requires Numbered(log) && from <= upto <= |log| && CHECKPOINT_TXN !in att
    ensures CHECKPOINT_TXN !in AttScan(att, log, from, upto)
    decreases upto
  {
    if from < upto {
      ScanIgnoresCheckpointer(att, log, from, upto - 1);
    }
  }

  /** The seed table for a transaction the scan does not meet, when there is no checkpoint. */
  lemma {:induction false} SeedFromStart(s: Store, t: TxnId)
    requires CrashSafe(s) && NoRecords(s.log, 0, |s.log|, t)
    ensures t !in SeedAtt(s.log, 0) && LastLsn(s.log, t) == 0
  {
    var e := FirstEnd(s.log, 0);
    if e < |s.log| {
      assert SnapshotOk(s, e);
      assert forall j :: 0 <= j < e ==> s.log[..e][j] == s.log[j];
    }
  }

  lemma {:induction false} QuietLastLsn(log: seq<Record>, b: nat, e: nat, t: TxnId)
    requires b <= e <= |log| && NoRecords(log, b, e, t)
    ensures LastLsn(log[..e], t) == LastLsn(log[..b], t)
  {
    var l := LastLsn(log[..e], t);
    assert l > 0 ==> log[..e][l - 1] == log[l - 1];
    assert l > 0 ==> log[..b][l - 1] == log[l - 1];
    var m := LastLsn(log[..b], t);
    assert m > 0 ==> log[..b][m - 1] == log[..e][m - 1];
  }

  /** The same, when the scan starts at a checkpoint. */
  lemma {:induction false} SeedFromCheckpoint(s: Store, c: Lsn, t: TxnId)
    requires Sized(s) && Snapshots(s) && GoodCheckpoint(s, c) && c > 0 && s.durable == |s.log| && t != CHECKPOINT_TXN
    requires NoRecords(s.log, c - 1, |s.log|, t)
    ensures var att, before := SeedAtt(s.log, c), s.log[..c - 1];
            && (t in att ==> !Committed(before, t) && att[t] == (LastLsn(before, t), false) && LastLsn(before, t) > 0)
            && (t !in att && LastLsn(before, t) > 0 ==> Closed(before, t))
  {
    var b := c - 1;
    var e := FirstEnd(s.log, b);
    assert e == FirstEnd(s.log, c);
    QuietLastLsn(s.log, b, e, t);
    assert AttEntryOk(s.log, b, e, t);
    assert SnapshotOk(s, e);
  }

  /** Nothing is left to do for this transaction. */
  predicate Finished(log: seq<Record>, t: TxnId)
  {
    t == CHECKPOINT_TXN || LastLsn(log, t) == 0 || Closed(log, t)
  }

  /** Everything undo needs to know about one transaction: a loser is uncommitted and listed with its
      newest LSN; everything else is finished. */
  ghost predicate FoundRight(log: seq<Record>, att: Att, t: TxnId)
  {
    if t in att && !att[t].1
    then t != CHECKPOINT_TXN && !Committed(log, t) && att[t].0 == LastLsn(log, t) && att[t].0 > 0
    else Finished(log, t)
  }

  lemma {:induction false} FoundQuiet(s: Store, c: Lsn, t: TxnId)
    requires CrashSafe(s) && GoodCheckpoint(s, c) && s.durable == |s.log| && t != CHECKPOINT_TXN
    requires NoRecords(s.log, StartIndex(c), |s.log|, t)
    ensures FoundRight(s.log, FoundAtt(s.log, c), t)
  {
    var b := StartIndex(c);
    ScanQuiet(SeedAtt(s.log, c), s.log, b, |s.log|, t);
    if c == 0 {
      SeedFromStart(s, t);
    } else {
      SeedFromCheckpoint(s, c, t);
      QuietTail(s.base, s.log, b, t);
      if t !in SeedAtt(s.log, c) && LastLsn(s.log, t) > 0 { ClosedStays(s.base, s.log, b, t); }
    }
  }

  lemma {:induction false} LosersAreUncommitted(base: seq<PageData>, log: seq<Record>, c: Lsn, t: TxnId)
    requires WellFormed(base, log) && c <= |log|
    requires Committed(log[..StartIndex(c)], t) ==> t !in SeedAtt(log, c)
    ensures t in FoundAtt(log, c) && !FoundAtt(log, c)[t].1 ==> !Committed(log, t)
  {
    if Committed(log, t) {
      var b := StartIndex(c);
      var i :| 0 <= i < |log| && log[i].txn == t && log[i].kind.Commit?;
      assert i < b ==> log[..b][i] == log[i];
      CommitIsSeen(base, SeedAtt(log, c), log, b, |log|, t, i);
    }
  }

  lemma {:induction false} FoundLsn(log: seq<Record>, c: Lsn, t: TxnId, k: nat)
    requires Numbered(log) && c <= |log| && t != CHECKPOINT_TXN
    requires StartIndex(c) <= k < |log| && log[k].txn == t
    ensures var a, l := FoundAtt(log, c), LastLsn(log, t);
            && l > 0
            && (t in a ==> a[t].0 == l && (a[t].1 ==> Committed(log, t)))
            && (t !in a ==> log[l - 1].kind.End?)
  {
    ScanSees(SeedAtt(log, c), log, StartIndex(c), |log|, t, LastLsn(log, t) - 1);
    FlagMeansCommitted(SeedAtt(log, c), log, StartIndex(c), |log|, t);
  }

  lemma {:induction false} CommittedIsClosed(log: seq<Record>, t: TxnId)
    requires Chained(log) && Committed(log, t)
    ensures Closed(log, t)
  {
  }

  lemma {:induction false} FoundByScan(base: seq<PageData>, log: seq<Record>, c: Lsn, t: TxnId, k: nat)
    requires WellFormed(base, log) && c <= |log| && t != CHECKPOINT_TXN
    requires StartIndex(c) <= k < |log| && log[k].txn == t
    requires Committed(log[..StartIndex(c)], t) ==> t !in SeedAtt(log, c)
    ensures FoundRight(log, FoundAtt(log, c), t)
  {
    WellFormedIsNumbered(base, log);
    FoundLsn(log, c, t, k);
    LosersAreUncommitted(base, log, c, t);
    if t !in FoundAtt(log, c) {
      EndMeansClosed(base, log, t);
    } else if FoundAtt(log, c)[t].1 {
      CommittedIsClosed(log, t);
    }
  }

  lemma {:induction false} SeedIsUncommitted(s: Store, c: Lsn, t: TxnId)
    requires Sized(s) && GoodCheckpoint(s, c) && s.durable == |s.log| && t != CHECKPOINT_TXN
    ensures Committed(s.log[..StartIndex(c)], t) ==> t !in SeedAtt(s.log, c)
  {
    if c > 0 {
      var e := FirstEnd(s.log, c - 1);
      assert e == FirstEnd(s.log, c);
      assert AttEntryOk(s.log, c - 1, e, t);
    }
  }

  lemma {:induction false} CheckpointerIsNoLoser(s: Store, c: Lsn)
    requires CrashSafe(s) && c <= |s.log|
    ensures FoundRight(s.log, FoundAtt(s.log, c), CHECKPOINT_TXN)
  {
    WellFormedIsNumbered(s.base, s.log);
    var e := FirstEnd(s.log, StartIndex(c));
    if e < |s.log| { assert SnapshotOk(s, e); }
    ScanIgnoresCheckpointer(SeedAtt(s.log, c), s.log, StartIndex(c), |s.log|);
  }

  /** Analysis from any usable checkpoint lists, with the LSN its undo chain starts from, every
      transaction that is not finished; and it lists no committed transaction as a loser. */
  lemma {:induction false} AnalysisFindsLosers(s: Store, c: Lsn, t: TxnId)
    requires CrashSafe(s) && GoodCheckpoint(s, c) && s.durable == |s.log|
    ensures FoundRight(s.log, FoundAtt(s.log, c), t)
  {
    if t == CHECKPOINT_TXN {
      CheckpointerIsNoLoser(s, c);
    } else if NoRecords(s.log, StartIndex(c), |s.log|, t) {
      FoundQuiet(s, c, t);
    } else {
      var k :| StartIndex(c) <= k < |s.log| && s.log[k].txn == t;
      SeedIsUncommitted(s, c, t);
      FoundByScan(s.base, s.log, c, t, k);
    }
  }

  /** Whichever usable checkpoint recovery starts from, the same transactions are undone from the same LSNs. */
  lemma {:induction false} SameLosers(s: Store, c: Lsn, d: Lsn, t: TxnId)
    requires CrashSafe(s) && GoodCheckpoint(s, c) && GoodCheckpoint(s, d) && s.durable == |s.log|
    ensures var a, b := FoundAtt(s.log, c), FoundAtt(s.log, d);
            && (Pending(s.log, t) != [] ==> t in a && t in b && a[t] == b[t] == (LastLsn(s.log, t), false))
            && (Committed(s.log, t) ==> (t in a ==> a[t].1) && (t in b ==> b[t].1))
  {
    AnalysisFindsLosers(s, c, t);
    AnalysisFindsLosers(s, d, t);
    if t == CHECKPOINT_TXN && Pending(s.log, t) != [] {
      PendingIsOwn(s.base, s.log, t, Last(Pending(s.log, t)));
      RecordWasAdmissible(s.base, s.log, Last(Pending(s.log, t)) - 1);
    }
  }

  // ---- The dirty page table ----

  lemma {:induction false} DptScanSees(dpt: Dpt, log: seq<Record>, from: nat, upto: nat, p: PageId)
    requires Numbered(log) && from <= upto <= |log|
    ensures var d := DptScan(dpt, log, from, upto);
            && (p in dpt ==> p in d && d[p] == dpt[p])
            && (p in d && p !in dpt ==> from < d[p] <= upto)
            && (forall i :: from <= i < upto && WritesPage(log[i], p) && p !in dpt ==> p in d && d[p] <= i + 1)
    decreases upto
  {
    if from < upto {
      DptScanSees(dpt, log, from, upto - 1, p);
    }
  }

  lemma {:induction false} SeedDptIsRight(s: Store, c: Lsn, p: PageId)
    requires CrashSafe(s) && GoodCheckpoint(s, c) && s.durable == |s.log|
    ensures var dpt := SeedDpt(s.log, c);
            && (p in dpt ==> p < |s.disk| && s.truncated < dpt[p] <= |s.log| && Covered(s.log, s.disk[p], p, dpt[p]))
            && (p !in dpt && p < |s.disk| ==> Covered(s.log, s.disk[p], p, StartIndex(c) + 1))
  {
    var b := StartIndex(c);
    var e := FirstEnd(s.log, b);
    if e < |s.log| {
      assert SnapshotOk(s, e);
      assert DirtyEntryOk(s, e, ToMap(s.log[e].kind.dpt), p);
    }
    if c > 0 {
      assert e == FirstEnd(s.log, c);
      if p < |s.disk| { assert PageReady(s, ToMap(s.log[e].kind.dpt), c, p); }
    }
  }

  /** Redo from any point at or below every entry of the dirty page table misses no write that a disk
      image lacks, and reads no truncated record. */
  lemma {:induction false} RedoStartIsLowEnough(s: Store, c: Lsn, p: PageId, start: Lsn)
    requires CrashSafe(s) && GoodCheckpoint(s, c) && s.durable == |s.log| && p < |s.disk|
    requires forall q :: q in FoundDpt(s.log, c) ==> start <= FoundDpt(s.log, c)[q]
    ensures Covered(s.log, s.disk[p], p, start)
  {
    WellFormedIsNumbered(s.base, s.log);
    var b, seed := StartIndex(c), SeedDpt(s.log, c);
    var d := FoundDpt(s.log, c);
    DptScanSees(seed, s.log, b, |s.log|, p);
    SeedDptIsRight(s, c, p);
    forall i | 0 <= i < |s.log| && i + 1 < start && WritesPage(s.log[i], p) ensures i + 1 <= s.disk[p].lsn {
      if p in seed {
        assert start <= d[p] == seed[p];
      }
    }
  }

  lemma {:induction false} RedoReadsSurvivors(s: Store, c: Lsn, q: PageId)
    requires CrashSafe(s) && GoodCheckpoint(s, c) && s.durable == |s.log| && q in FoundDpt(s.log, c)
    ensures s.truncated < FoundDpt(s.log, c)[q] <= |s.log|
  {
    WellFormedIsNumbered(s.base, s.log);
    DptScanSees(SeedDpt(s.log, c), s.log, StartIndex(c), |s.log|, q);
    SeedDptIsRight(s, c, q);
  }

  // ---- The analysis pass itself ----

  /** Entries inserted one after the other, later ones replacing earlier ones. */
  method InsertAll<K(==), V>(pairs: seq<(K, V)>) returns (m: map<K, V>)
    ensures m == ToMap(pairs)
  {
    m := map[];
    for i := 0 to |pairs|
      invariant m == ToMap(pairs[..i])
    {
      m := m[pairs[i].0 := pairs[i].1];
      assert Front(pairs[..i + 1]) == pairs[..i];
    }
    assert pairs[..|pairs|] == pairs;
  }

  /** The two passes over the log that build the tables. */
  method Analyze(log: seq<Record>, c: Lsn) returns (att: Att, dpt: Dpt)
    requires c <= |log|
    ensures att == FoundAtt(log, c) && dpt == FoundDpt(log, c)
  {
    var start := StartIndex(c);
    att, dpt := map[], map[];
    var i := start;
    while i < |log| && !log[i].kind.CheckpointEnd?
      invariant start <= i <= |log| && FirstEnd(log, start) == FirstEnd(log, i)
    {
      i := i + 1;
    }
    if i < |log| {
      var active := InsertAll(log[i].kind.att);
      att := map t | t in active :: (active[t], false);
      dpt := InsertAll(log[i].kind.dpt);
    }
    assert att == SeedAtt(log, c) && dpt == SeedDpt(log, c);
    for j := start to |log|
      invariant att == AttScan(SeedAtt(log, c), log, start, j) && dpt == DptScan(SeedDpt(log, c), log, start, j)
    {
      att, dpt := AttStep(att, log[j]), DptStep(dpt, log[j]);
    }
  }

  /** The lowest recovery LSN, where redo starts; past the end of the log if no page may be dirty. */
  method RedoStart(dpt: Dpt, none: Lsn) returns (m: Lsn)
    ensures forall q :: q in dpt ==> m <= dpt[q]
    ensures if dpt == map[] then m == none else exists q :: q in dpt && m == dpt[q]
  {
    if dpt == map[] { return none; }
    var q :| q in dpt;
    m := dpt[q];
    var rest := dpt.Keys - {q};
    while rest != {}
      invariant rest <= dpt.Keys
      invariant forall r :: r in dpt && r !in rest ==> m <= dpt[r]
      invariant exists r :: r in dpt && m == dpt[r]
      decreases |rest|
    {
      var r :| r in rest;
      if dpt[r] < m { m := dpt[r]; }
      rest := rest - {r};
    }
  }
}
