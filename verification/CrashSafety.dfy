/** What must hold of the disk pages and the log at every instant, so that a crash at that instant
    can be recovered from; and that every elementary step keeps it. */
module CrashSafety {
  import opened Bytes
  import opened LogRecords
  import opened History

  /** Bytes 32..40 of page 0 hold the LSN of the newest checkpoint. */
  const HEADER_PAGE: PageId := 0
  const CHECKPOINT_AT := 32
  const CHECKPOINT_LEN := 8

  function CheckpointLsn(d: PageData): Lsn
  {
    FromLe(d[CHECKPOINT_AT..CHECKPOINT_AT + CHECKPOINT_LEN])
  }

  predicate WritesPage(r: Record, p: PageId)
  {
    r.kind.Writes() && r.kind.page == p
  }

  predicate TouchesHeader(r: Record)
  {
    && WritesPage(r, HEADER_PAGE)
    && r.kind.offset < CHECKPOINT_AT + CHECKPOINT_LEN && CHECKPOINT_AT < r.kind.offset + |r.kind.after|
  }

  /** The one way the engine writes those bytes: all eight at once. */
  predicate SetsHeader(r: Record)
  {
    WritesPage(r, HEADER_PAGE) && r.kind.offset == CHECKPOINT_AT && |r.kind.after| == CHECKPOINT_LEN
  }

  /** Every write to `p` with an LSN below `bound` is already in this image. */
  predicate Covered(log: seq<Record>, page: Page, p: PageId, bound: Lsn)
  {
    forall i :: 0 <= i < |log| && i + 1 < bound && WritesPage(log[i], p) ==> i + 1 <= page.lsn
  }

  function ToMap<K, V>(s: seq<(K, V)>): map<K, V>
  {
    if s == [] then map[] else ToMap(Front(s))[Last(s).0 := Last(s).1]
  }

  /** What survives a crash, with the whole history: records up to `truncated` are no longer in the
      log files, records up to `durable` have been synced. Versions of page 0 older than `floor`
      can never again be read from disk. */
  datatype Store = Store(base: seq<PageData>, disk: seq<Page>, log: seq<Record>, durable: nat, truncated: nat, floor: nat)

  predicate Sized(s: Store)
  {
    && 0 < |s.base| == |s.disk|
    && s.truncated <= s.durable <= |s.log|
    && Chained(s.log) && WritesFit(s.log)
  }

  /** A page image is some past version of the page: the one its own LSN names. */
  predicate Image(base: seq<PageData>, log: seq<Record>, p: PageId, page: Page)
    requires p < |base|
  {
    page.lsn <= |log| && page == PageAfter(base, log[..page.lsn], p)
  }

  /** Log before page: an image on disk contains only durable records. */
  ghost predicate Images(s: Store)
    requires Sized(s)
  {
    forall p :: 0 <= p < |s.disk| ==> s.disk[p].lsn <= s.durable && Image(s.base, s.log, p, s.disk[p])
  }

  /** The dirty-page snapshot `dpt`, logged at index `e`, is right about the disk image of `p`. */
  predicate DirtyEntryOk(s: Store, e: nat, dpt: map<PageId, Lsn>, p: PageId)
  {
    p in dpt ==> p < |s.disk| && 0 < dpt[p] <= e && Covered(s.log, s.disk[p], p, dpt[p])
  }

  /** The checkpoint snapshot logged at index `e` is right about the disk and names only logged transactions. */
  ghost predicate SnapshotOk(s: Store, e: nat)
    requires Sized(s) && e < |s.log| && s.log[e].kind.CheckpointEnd?
  {
    var att, dpt := ToMap(s.log[e].kind.att), ToMap(s.log[e].kind.dpt);
    && (forall p: PageId :: DirtyEntryOk(s, e, dpt, p))
    && (forall t :: t in att ==> t != CHECKPOINT_TXN && LastLsn(s.log[..e], t) > 0)
  }

  ghost predicate Snapshots(s: Store)
    requires Sized(s)
  {
    forall e :: 0 <= e < |s.log| && s.log[e].kind.CheckpointEnd? ==> SnapshotOk(s, e)
  }

  /** Index of the first CheckpointEnd at or after `i`, |log| if there is none. */
  function FirstEnd(log: seq<Record>, i: nat): (e: nat)
    requires i <= |log|
    ensures i <= e <= |log|
    ensures e < |log| ==> log[e].kind.CheckpointEnd?
    ensures forall j :: i <= j < e ==> !log[j].kind.CheckpointEnd?
    decreases |log| - i
  {
    if i == |log| || log[i].kind.CheckpointEnd? then i else FirstEnd(log, i + 1)
  }

  predicate NoRecords(log: seq<Record>, from: nat, to: nat, t: TxnId)
    requires to <= |log|
  {
    forall j :: from <= j < to ==> log[j].txn != t
  }

  /** The active-transaction snapshot of the checkpoint begun at index `b` and ended at index `e`. */
  ghost predicate AttOk(log: seq<Record>, b: nat, e: nat)
    requires b < e < |log| && log[e].kind.CheckpointEnd?
  {
    forall t :: t != CHECKPOINT_TXN ==> AttEntryOk(log, b, e, t)
  }

  ghost predicate AttEntryOk(log: seq<Record>, b: nat, e: nat, t: TxnId)
    requires b < e < |log| && log[e].kind.CheckpointEnd?
  {
    var att, quiet := ToMap(log[e].kind.att), NoRecords(log, b, e, t);
    && (t in att ==> !Committed(log[..b], t))
    && (t in att && quiet ==> att[t] == LastLsn(log[..b], t))
    && (t !in att && quiet && LastLsn(log[..b], t) > 0 ==> Closed(log[..b], t))
  }

  /** Redo will see every write to `p` that the disk image lacks, and can still read it. */
  predicate PageReady(s: Store, dpt: map<PageId, Lsn>, c: Lsn, p: PageId)
    requires p < |s.disk|
  {
    if p in dpt then s.truncated < dpt[p] else Covered(s.log, s.disk[p], p, c)
  }

  /** Recovery may start from the checkpoint at `c`: its records are durable, its snapshot is usable,
      and nothing it will read has been truncated. 0 means no checkpoint: start at the first record. */
  ghost predicate GoodCheckpoint(s: Store, c: Lsn)
    requires Sized(s)
  {
    if c == 0 then s.truncated == 0
    else
      && s.truncated < c <= s.durable
      && s.log[c - 1].kind.CheckpointBegin?
      && var e := FirstEnd(s.log, c);
      && e < s.durable
      && AttOk(s.log, c - 1, e)
      && forall p: PageId :: p < |s.disk| ==> PageReady(s, ToMap(s.log[e].kind.dpt), c, p)
  }

  function HeaderAt(base: seq<PageData>, log: seq<Record>, k: nat): Lsn
    requires 0 < |base| && k <= |log|
  {
    CheckpointLsn(PageAfter(base, log[..k], HEADER_PAGE).data)
  }

  /** Every version of page 0 that a restart could still read names a usable checkpoint. */
  ghost predicate Headers(s: Store)
    requires Sized(s)
  {
    && s.floor <= s.disk[HEADER_PAGE].lsn
    && forall k :: s.floor <= k <= |s.log| ==> GoodCheckpoint(s, HeaderAt(s.base, s.log, k))
  }

  /** Header bytes are written whole, and below the floor only by transactions that are durably finished. */
  ghost predicate HeaderWrites(s: Store)
    requires Sized(s)
  {
    && (forall i :: 0 <= i < |s.log| && TouchesHeader(s.log[i]) ==> SetsHeader(s.log[i]))
    && (forall i :: 0 <= i < s.floor && i < |s.log| && TouchesHeader(s.log[i]) ==> DurablyClosed(s, s.log[i].txn))
  }

  ghost predicate DurablyClosed(s: Store, t: TxnId)
    requires Sized(s)
  {
    Closed(s.log[..s.durable], t)
  }

  /** Truncation removed only finished transactions, and left a record naming an id at least as high. */
  ghost predicate Truncation(s: Store)
    requires Sized(s)
  {
    forall i :: 0 <= i < s.truncated && s.log[i].txn != CHECKPOINT_TXN ==>
      DurablyClosed(s, s.log[i].txn) && HigherIdSurvives(s.log, s.truncated, s.durable, s.log[i].txn)
  }

  predicate HigherIdSurvives(log: seq<Record>, from: nat, to: nat, t: TxnId)
    requires to <= |log|
  {
    exists j :: from <= j < to && log[j].txn != CHECKPOINT_TXN && t <= log[j].txn
  }

  ghost predicate CrashSafe(s: Store)
  {
    Sized(s) && WellFormed(s.base, s.log) && Images(s) && Snapshots(s) && Headers(s) && HeaderWrites(s) && Truncation(s)
  }

  // ---- Facts about page versions ----

  /** A page does not change while nothing writes it. */
  lemma {:induction false} PageStable(base: seq<PageData>, log: seq<Record>, n: nat, m: nat, p: PageId)
    requires p < |base| && WritesFit(log) && n <= m <= |log|
    requires forall i :: n <= i < m ==> !WritesPage(log[i], p)
    ensures PageAfter(base, log[..n], p) == PageAfter(base, log[..m], p)
    decreases m - n
  {
    if n < m {
      PageStable(base, log, n, m - 1, p);
      assert Front(log[..m]) == log[..m - 1];
    }
  }

  lemma {:induction false} PageLsnIsPast(base: seq<PageData>, log: seq<Record>, p: PageId)
    requires p < |base| && WritesFit(log)
    ensures PageAfter(base, log, p).lsn <= |log|
    ensures Covered(log, PageAfter(base, log, p), p, |log| + 1)
    ensures PageAfter(base, log, p) == PageAfter(base, log[..PageAfter(base, log, p).lsn], p)
    decreases |log|
  {
    if log != [] {
      var pre := Front(log);
      PageLsnIsPast(base, pre, p);
      assert forall i :: 0 <= i < |pre| ==> pre[i] == log[i];
      var l := PageAfter(base, log, p).lsn;
      if WritesPage(Last(log), p) {
        assert log[..|log|] == log;
      } else {
        assert pre[..l] == log[..l];
      }
    }
  }

  /** An image that contains every write up to `n` and none after is the page after `n` records. */
  lemma {:induction false} CoveredImage(base: seq<PageData>, log: seq<Record>, p: PageId, page: Page, n: nat)
    requires p < |base| && WritesFit(log) && Image(base, log, p, page)
    requires page.lsn <= n <= |log| && Covered(log, page, p, n + 1)
    ensures page == PageAfter(base, log[..n], p)
  {
    PageStable(base, log, page.lsn, n, p);
  }

  // ---- What the steps leave alone ----

  /** The two logs agree on their first `d` records. */
  predicate Agree(log: seq<Record>, log': seq<Record>, d: nat)
  {
    d <= |log| && d <= |log'| && log[..d] == log'[..d]
  }

  lemma {:induction false} AgreeAt(log: seq<Record>, log': seq<Record>, d: nat)
    requires Agree(log, log', d)
    ensures forall i :: 0 <= i < d ==> log[i] == log'[i]
    ensures forall n :: 0 <= n <= d ==> log[..n] == log'[..n]
  {
    assert forall i :: 0 <= i < d ==> log[i] == log[..d][i];
    assert forall i :: 0 <= i < d ==> log'[i] == log'[..d][i];
  }

  lemma {:induction false} FirstEndAgrees(log: seq<Record>, log': seq<Record>, d: nat, i: nat)
    requires Agree(log, log', d) && i <= d && FirstEnd(log, i) < d
    ensures FirstEnd(log', i) == FirstEnd(log, i)
  {
    AgreeAt(log, log', d);
    var e := FirstEnd(log, i);
    assert log'[e] == log[e];
  }

  lemma {:induction false} AttAgrees(log: seq<Record>, log': seq<Record>, d: nat, b: nat, e: nat)
    requires Agree(log, log', d) && b < e < d && log[e].kind.CheckpointEnd?
    requires Chained(log) && Chained(log') && log'[e] == log[e] && AttOk(log, b, e)
    ensures AttOk(log', b, e)
  {
    AgreeAt(log, log', d);
    assert log'[..b] == log[..b];
    forall t | t != CHECKPOINT_TXN ensures AttEntryOk(log', b, e, t) {
      assert AttEntryOk(log, b, e, t);
      assert forall j :: b <= j < e ==> log[j] == log'[j];
      assert NoRecords(log', b, e, t) <==> NoRecords(log, b, e, t);
    }
  }

  lemma {:induction false} CoveredMoves(log: seq<Record>, log': seq<Record>, d: nat, page: Page, page': Page, p: PageId, bound: Lsn)
    requires Agree(log, log', d) && bound <= d + 1
    requires Covered(log, page, p, bound) && page.lsn <= page'.lsn
    ensures Covered(log', page', p, bound)
  {
    AgreeAt(log, log', d);
    forall i | 0 <= i < |log'| && i + 1 < bound && WritesPage(log'[i], p) ensures i + 1 <= page'.lsn {
      assert log'[i] == log[i];
    }
  }

  /** From `s` to `s'` the log may have grown at its tail or lost an unsynced tail, more of it may be
      durable, and disk images may have moved forward. */
  predicate Moves(s: Store, s': Store)
    requires Sized(s) && Sized(s')
  {
    && s'.base == s.base && s'.truncated == s.truncated && s.durable <= s'.durable
    && s.durable <= |s'.log| && (s.log <= s'.log || s'.log <= s.log)
    && forall p :: 0 <= p < |s.disk| ==> s.disk[p].lsn <= s'.disk[p].lsn
  }

  lemma {:induction false} GoodCheckpointMoves(s: Store, s': Store, c: Lsn)
    requires Sized(s) && Sized(s') && Moves(s, s') && GoodCheckpoint(s, c)
    ensures GoodCheckpoint(s', c)
  {
    if c > 0 {
      var e := FirstEnd(s.log, c);
      assert Agree(s.log, s'.log, s.durable);
      AgreeAt(s.log, s'.log, s.durable);
      FirstEndAgrees(s.log, s'.log, s.durable, c);
      AttAgrees(s.log, s'.log, s.durable, c - 1, e);
      var dpt := ToMap(s.log[e].kind.dpt);
      forall p: PageId | p < |s'.disk| ensures PageReady(s', dpt, c, p) {
        assert PageReady(s, dpt, c, p);
        if p !in dpt { CoveredMoves(s.log, s'.log, s.durable, s.disk[p], s'.disk[p], p, c); }
      }
    }
  }

  lemma {:induction false} SnapshotMoves(s: Store, s': Store, e: nat)
    requires Sized(s) && Sized(s') && Moves(s, s') && e < |s.log| && e < |s'.log|
    requires s.log[e].kind.CheckpointEnd? && SnapshotOk(s, e)
    ensures s'.log[e] == s.log[e] && SnapshotOk(s', e)
  {
    assert Agree(s.log, s'.log, e + 1);
    AgreeAt(s.log, s'.log, e + 1);
    var dpt := ToMap(s.log[e].kind.dpt);
    forall p: PageId ensures DirtyEntryOk(s', e, dpt, p) {
      assert DirtyEntryOk(s, e, dpt, p);
      if p in dpt { CoveredMoves(s.log, s'.log, e + 1, s.disk[p], s'.disk[p], p, dpt[p]); }
    }
    assert s'.log[..e] == s.log[..e];
  }

  lemma {:induction false} DurablyClosedMoves(s: Store, s': Store, t: TxnId)
    requires Sized(s) && Sized(s') && Moves(s, s') && WellFormed(s'.base, s'.log) && DurablyClosed(s, t)
    ensures DurablyClosed(s', t)
  {
    var now := s'.log[..s'.durable];
    Cut(s'.base, s'.log, s'.durable);
    Cut(s'.base, now, s.durable);
    SamePrefix(s.log, s'.log, s.durable, s'.durable);
    ClosedStays(s'.base, now, s.durable, t);
  }

  lemma {:induction false} SamePrefix(a: seq<Record>, b: seq<Record>, n: nat, m: nat)
    requires (a <= b || b <= a) && n <= m <= |b| && n <= |a|
    ensures b[..m][..n] == a[..n]
  {
  }

  lemma {:induction false} HeaderAtAgrees(s: Store, s': Store, k: nat)
    requires Sized(s) && Sized(s') && Moves(s, s') && k <= |s.log| && k <= |s'.log|
    ensures HeaderAt(s'.base, s'.log, k) == HeaderAt(s.base, s.log, k)
  {
    assert s'.log[..k] == s.log[..k];
  }

  lemma {:induction false} TruncationMoves(s: Store, s': Store)
    requires Sized(s) && Sized(s') && Moves(s, s') && WellFormed(s'.base, s'.log) && Truncation(s)
    ensures Truncation(s')
  {
    forall i | 0 <= i < s'.truncated && s'.log[i].txn != CHECKPOINT_TXN
      ensures DurablyClosed(s', s'.log[i].txn) && HigherIdSurvives(s'.log, s'.truncated, s'.durable, s'.log[i].txn)
    {
      var t := s.log[i].txn;
      assert s'.log[i] == s.log[i];
      DurablyClosedMoves(s, s', t);
      var j :| s.truncated <= j < s.durable && s.log[j].txn != CHECKPOINT_TXN && t <= s.log[j].txn;
      assert s'.log[j] == s.log[j];
    }
  }

  lemma {:induction false} HeaderWritesMove(s: Store, s': Store)
    requires Sized(s) && Sized(s') && Moves(s, s') && WellFormed(s'.base, s'.log) && HeaderWrites(s)
    requires s'.floor == s.floor <= s.durable
    requires forall i :: |s.log| <= i < |s'.log| && TouchesHeader(s'.log[i]) ==> SetsHeader(s'.log[i])
    ensures HeaderWrites(s')
  {
    forall i | 0 <= i < |s'.log| && TouchesHeader(s'.log[i])
      ensures SetsHeader(s'.log[i]) && (i < s'.floor ==> DurablyClosed(s', s'.log[i].txn))
    {
      if i < |s.log| {
        assert s'.log[i] == s.log[i];
        if i < s.floor { DurablyClosedMoves(s, s', s.log[i].txn); }
      }
    }
  }

  /** A step is crash safe if what it adds is: new snapshots, new header writes, new page-0 versions, new images. */
  lemma {:induction false} MovesKeepsCrashSafe(s: Store, s': Store)
    requires CrashSafe(s) && Sized(s') && WellFormed(s'.base, s'.log) && Moves(s, s') && s'.floor == s.floor
    requires Images(s')
    requires forall e :: |s.log| <= e < |s'.log| && s'.log[e].kind.CheckpointEnd? ==> SnapshotOk(s', e)
    requires forall i :: |s.log| <= i < |s'.log| && TouchesHeader(s'.log[i]) ==> SetsHeader(s'.log[i])
    requires forall k :: |s.log| < k <= |s'.log| ==> GoodCheckpoint(s', HeaderAt(s'.base, s'.log, k))
    ensures CrashSafe(s')
  {
    assert s.disk[HEADER_PAGE].lsn <= s.durable;
    TruncationMoves(s, s');
    HeaderWritesMove(s, s');
    forall e | 0 <= e < |s'.log| && s'.log[e].kind.CheckpointEnd? ensures SnapshotOk(s', e) {
      if e < |s.log| {
        assert s.log[e] == s'.log[e];
        SnapshotMoves(s, s', e);
      }
    }
    forall k | s'.floor <= k <= |s'.log| ensures GoodCheckpoint(s', HeaderAt(s'.base, s'.log, k)) {
      if k <= |s.log| {
        HeaderAtAgrees(s, s', k);
        GoodCheckpointMoves(s, s', HeaderAt(s.base, s.log, k));
      }
    }
  }

  // ---- The elementary steps ----

  lemma {:induction false} RecordWasAdmissible(base: seq<PageData>, log: seq<Record>, i: nat)
    requires WellFormed(base, log) && i < |log|
    ensures Chained(log[..i]) && WritesFit(log[..i]) && Admissible(base, log[..i], log[i])
  {
    Cut(base, log, i + 1);
    assert Front(log[..i + 1]) == log[..i] && Last(log[..i + 1]) == log[i];
  }

  lemma {:induction false} HeaderUnchanged(base: seq<PageData>, log: seq<Record>, r: Record, next: seq<Record>)
    requires 0 < |base| && WritesFit(next) && next == log + [r] && !TouchesHeader(r)
    ensures HeaderAt(base, next, |next|) == HeaderAt(base, log, |log|)
  {
    assert next[|log|] == r;
    assert next[..|next|] == next && Front(next) == log && log[..|log|] == log;
    var d, d' := PageAfter(base, log, HEADER_PAGE).data, PageAfter(base, next, HEADER_PAGE).data;
    assert d'[CHECKPOINT_AT..CHECKPOINT_AT + CHECKPOINT_LEN] == d[CHECKPOINT_AT..CHECKPOINT_AT + CHECKPOINT_LEN];
  }

  lemma {:induction false} HeaderSet(base: seq<PageData>, log: seq<Record>, r: Record, next: seq<Record>)
    requires 0 < |base| && WritesFit(next) && next == log + [r] && SetsHeader(r)
    ensures HeaderAt(base, next, |next|) == FromLe(r.kind.after)
  {
    assert next[|log|] == r;
    assert next[..|next|] == next && Front(next) == log;
    var d' := PageAfter(base, next, HEADER_PAGE).data;
    assert d'[CHECKPOINT_AT..CHECKPOINT_AT + CHECKPOINT_LEN] == r.kind.after;
  }

  /** The before-image of a header write is the checkpoint named until then. */
  lemma {:induction false} HeaderBefore(base: seq<PageData>, log: seq<Record>, i: nat)
    requires WellFormed(base, log) && i < |log| && log[i].kind.Update? && SetsHeader(log[i])
    ensures 0 < |base| && FromLe(log[i].kind.before) == HeaderAt(base, log, i)
  {
    RecordWasAdmissible(base, log, i);
  }

  /** A header write that can still be undone is above the floor. */
  lemma {:induction false} PendingAboveFloor(s: Store, t: TxnId, i: nat)
    requires CrashSafe(s) && i + 1 in Pending(s.log, t) && TouchesHeader(s.log[i])
    ensures s.floor <= i
  {
    PendingIsOwn(s.base, s.log, t, i + 1);
    if i < s.floor {
      Cut(s.base, s.log, s.durable);
      ClosedStays(s.base, s.log, s.durable, t);
    }
  }

  /** A compensation of header bytes restores the before-image of the header write it undoes. */
  lemma {:induction false} ClrOfHeader(log: seq<Record>, r: Record) returns (i: nat)
    requires WritesFit(log) && r.kind.Clr? && ClrOk(log, r) && TouchesHeader(r)
    ensures i < |log| && i + 1 in Pending(log, r.txn) && TouchesHeader(log[i]) && log[i].kind.Update?
    ensures SetsHeader(log[i]) ==> SetsHeader(r)
    ensures r.kind.after == log[i].kind.before
  {
    i := Last(Pending(log, r.txn)) - 1;
  }

  /** So undoing it brings back a checkpoint that is still usable. */
  lemma {:induction false} UndoneHeader(s: Store, r: Record)
    requires CrashSafe(s) && Admissible(s.base, s.log, r) && r.kind.Clr? && TouchesHeader(r)
    ensures SetsHeader(r) && GoodCheckpoint(s, FromLe(r.kind.after))
  {
    var i := ClrOfHeader(s.log, r);
    HeaderBefore(s.base, s.log, i);
    PendingAboveFloor(s, r.txn, i);
  }

  lemma {:induction false} AppendedHeader(s: Store, s': Store, r: Record)
    requires CrashSafe(s) && Admissible(s.base, s.log, r) && s' == s.(log := s.log + [r]) && Sized(s')
    requires r.kind.Update? && TouchesHeader(r) ==> SetsHeader(r) && GoodCheckpoint(s', FromLe(r.kind.after))
    ensures TouchesHeader(r) ==> SetsHeader(r)
    ensures GoodCheckpoint(s', HeaderAt(s'.base, s'.log, |s'.log|))
  {
    var h := HeaderAt(s'.base, s'.log, |s'.log|);
    if !TouchesHeader(r) {
      assert s.disk[HEADER_PAGE].lsn <= s.durable;
      assert h == HeaderAt(s.base, s.log, |s.log|) by { HeaderUnchanged(s.base, s.log, r, s'.log); }
      GoodCheckpointMoves(s, s', h);
    } else {
      if r.kind.Clr? {
        UndoneHeader(s, r);
        GoodCheckpointMoves(s, s', FromLe(r.kind.after));
      }
      assert h == FromLe(r.kind.after) by { HeaderSet(s.base, s.log, r, s'.log); }
    }
  }

  lemma {:induction false} ImagesAgree(s: Store, s': Store)
    requires Sized(s) && Sized(s') && Moves(s, s') && Images(s) && s'.disk == s.disk
    ensures Images(s')
  {
    forall p | 0 <= p < |s'.disk| ensures s'.disk[p].lsn <= s'.durable && Image(s'.base, s'.log, p, s'.disk[p]) {
      assert s'.log[..s.disk[p].lsn] == s.log[..s.disk[p].lsn];
    }
  }

  lemma {:induction false} GrowsByOne(s: Store, s': Store, r: Record)
    requires CrashSafe(s) && s' == s.(log := s.log + [r]) && Sized(s') && WellFormed(s'.base, s'.log) && Images(s')
    requires r.kind.CheckpointEnd? ==> SnapshotOk(s', |s.log|)
    requires TouchesHeader(r) ==> SetsHeader(r)
    requires GoodCheckpoint(s', HeaderAt(s'.base, s'.log, |s'.log|))
    ensures CrashSafe(s')
  {
    OneMore(s, s', r);
    MovesKeepsCrashSafe(s, s');
  }

  lemma {:induction false} OneMore(s: Store, s': Store, r: Record)
    requires Sized(s) && s' == s.(log := s.log + [r]) && Sized(s')
    requires r.kind.CheckpointEnd? ==> s'.log[|s.log|].kind.CheckpointEnd? && SnapshotOk(s', |s.log|)
    requires TouchesHeader(r) ==> SetsHeader(r)
    requires GoodCheckpoint(s', HeaderAt(s'.base, s'.log, |s'.log|))
    ensures Moves(s, s')
    ensures forall e :: |s.log| <= e < |s'.log| && s'.log[e].kind.CheckpointEnd? ==> SnapshotOk(s', e)
    ensures forall i :: |s.log| <= i < |s'.log| && TouchesHeader(s'.log[i]) ==> SetsHeader(s'.log[i])
    ensures forall k :: |s.log| < k <= |s'.log| ==> GoodCheckpoint(s', HeaderAt(s'.base, s'.log, k))
  {
    assert s'.log[|s.log|] == r;
    forall k | |s.log| < k <= |s'.log| ensures GoodCheckpoint(s', HeaderAt(s'.base, s'.log, k)) {
      assert k == |s'.log|;
    }
  }

  lemma {:induction false} AppendSafe(s: Store, s': Store, r: Record)
    requires CrashSafe(s) && Admissible(s.base, s.log, r) && s' == s.(log := s.log + [r]) && Sized(s')
    requires r.kind.CheckpointEnd? ==> SnapshotOk(s', |s.log|)
    requires r.kind.Update? && TouchesHeader(r) ==> SetsHeader(r) && GoodCheckpoint(s', FromLe(r.kind.after))
    ensures CrashSafe(s')
  {
    Append(s.base, s.log, r);
    ImagesAgree(s, s');
    AppendedHeader(s, s', r);
    GrowsByOne(s, s', r);
  }

  lemma {:induction false} SyncSafe(s: Store, d: nat)
    requires CrashSafe(s) && s.durable <= d <= |s.log|
    ensures CrashSafe(s.(durable := d))
  {
    MovesKeepsCrashSafe(s, s.(durable := d));
  }

  /** Losing any part of the unsynced tail. */
  lemma {:induction false} CrashCutSafe(s: Store, n: nat)
    requires CrashSafe(s) && s.durable <= n <= |s.log|
    ensures CrashSafe(s.(log := s.log[..n]))
  {
    Cut(s.base, s.log, n);
    ImagesAgree(s, s.(log := s.log[..n]));
    MovesKeepsCrashSafe(s, s.(log := s.log[..n]));
  }

  /** Writing a newer image of a page whose records are durable. */
  lemma {:induction false} PageWriteSafe(s: Store, p: PageId, page: Page)
    requires CrashSafe(s) && p < |s.disk| && s.disk[p].lsn <= page.lsn <= s.durable && Image(s.base, s.log, p, page)
    ensures CrashSafe(s.(disk := s.disk[p := page]))
  {
    MovesKeepsCrashSafe(s, s.(disk := s.disk[p := page]));
  }

  // ---- Truncating the log ----

  /** Recovery from the checkpoint at `c` reads no record below `bound`. */
  ghost predicate NeedsOnlyFrom(s: Store, c: Lsn, bound: Lsn)
    requires Sized(s)
  {
    && 0 < bound <= c <= |s.log| && FirstEnd(s.log, c) < |s.log|
    && forall p :: p in ToMap(s.log[FirstEnd(s.log, c)].kind.dpt) ==> bound <= ToMap(s.log[FirstEnd(s.log, c)].kind.dpt)[p]
  }

  /** The records below `bound` belong to durably finished transactions, and a higher id survives. */
  ghost predicate Disposable(s: Store, bound: Lsn)
    requires Sized(s)
  {
    && 0 < bound <= s.durable
    && forall i :: 0 <= i < bound - 1 && s.log[i].txn != CHECKPOINT_TXN ==>
         DurablyClosed(s, s.log[i].txn) && HigherIdSurvives(s.log, bound - 1, s.durable, s.log[i].txn)
  }

  /** Every header write but the one at index `w` is by a transaction that is durably finished. */
  ghost predicate HeaderSettled(s: Store, w: int)
    requires Sized(s)
  {
    forall i :: 0 <= i < |s.log| && TouchesHeader(s.log[i]) && i != w ==> DurablyClosed(s, s.log[i].txn)
  }

  lemma {:induction false} CurrentHeader(s: Store, k: nat)
    requires CrashSafe(s) && s.disk[HEADER_PAGE] == PageAfter(s.base, s.log, HEADER_PAGE)
    requires s.disk[HEADER_PAGE].lsn <= k <= |s.log|
    ensures HeaderAt(s.base, s.log, k) == HeaderAt(s.base, s.log, |s.log|)
  {
    PageLsnIsPast(s.base, s.log, HEADER_PAGE);
    PageStable(s.base, s.log, k, |s.log|, HEADER_PAGE);
  }

  lemma {:induction false} TruncatedStillGood(s: Store, s': Store, c: Lsn, bound: Lsn)
    requires Sized(s) && Sized(s') && GoodCheckpoint(s, c) && NeedsOnlyFrom(s, c, bound)
    requires s' == s.(truncated := s'.truncated, floor := s'.floor) && s'.truncated < bound
    ensures GoodCheckpoint(s', c)
  {
    var dpt := ToMap(s.log[FirstEnd(s.log, c)].kind.dpt);
    forall p: PageId | p < |s'.disk| ensures PageReady(s', dpt, c, p) {
      assert PageReady(s, dpt, c, p);
    }
  }

  /** Version `k` of page 0 names a checkpoint that needs nothing below the bound. */
  ghost predicate NamedNeeds(s: Store, bound: Lsn, k: nat)
    requires Sized(s)
  {
    k <= |s.log| && NeedsOnlyFrom(s, HeaderAt(s.base, s.log, k), bound)
  }

  lemma {:induction false} TruncatedSnapshot(s: Store, s': Store, e: nat)
    requires Sized(s) && Sized(s') && s' == s.(truncated := s'.truncated, floor := s'.floor)
    requires e < |s.log| && s.log[e].kind.CheckpointEnd? && SnapshotOk(s, e)
    ensures SnapshotOk(s', e)
  {
    var dpt := ToMap(s.log[e].kind.dpt);
    forall p: PageId ensures DirtyEntryOk(s', e, dpt, p) { assert DirtyEntryOk(s, e, dpt, p); }
  }

  /** If no version of page 0 from `floor` on names a checkpoint that needs a record below the bound, and
      an unfinished header write is not below the floor, every record below the bound may go. */
  lemma {:induction false} TruncateSafe(s: Store, s': Store, bound: Lsn, w: int)
    requires CrashSafe(s) && Disposable(s, bound) && HeaderSettled(s, w)
    requires s' == s.(truncated := s'.truncated, floor := s'.floor) && s.truncated <= s'.truncated < bound
    requires s.floor <= s'.floor <= s.disk[HEADER_PAGE].lsn && (0 <= w ==> s'.floor <= w)
    requires forall k :: s'.floor <= k <= |s.log| ==> NamedNeeds(s, bound, k)
    ensures CrashSafe(s')
  {
    forall k | s'.floor <= k <= |s'.log| ensures GoodCheckpoint(s', HeaderAt(s'.base, s'.log, k)) {
      assert NamedNeeds(s, bound, k);
      TruncatedStillGood(s, s', HeaderAt(s.base, s.log, k), bound);
    }
    forall e | 0 <= e < |s'.log| && s'.log[e].kind.CheckpointEnd? ensures SnapshotOk(s', e) {
      TruncatedSnapshot(s, s', e);
    }
    forall i | 0 <= i < s'.truncated && s'.log[i].txn != CHECKPOINT_TXN
      ensures DurablyClosed(s', s'.log[i].txn) && HigherIdSurvives(s'.log, s'.truncated, s'.durable, s'.log[i].txn)
    {
      assert HigherIdSurvives(s.log, bound - 1, s.durable, s.log[i].txn);
    }
  }
}
