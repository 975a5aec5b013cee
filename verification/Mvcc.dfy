/** Row versions and transaction timestamps: the pruned version store answers like a history that is
    never pruned, for every active transaction and every live row. */
module Mvcc {
  import opened Options
  import KeyOrder

  type TxnId = nat
  type Ts = nat
  type Rid = KeyOrder.Rid

  /** `VersionEntry`; `end_ts` is never set by any operation. */
  datatype Entry = Entry(creator: TxnId, begin: Option<Ts>, end: Option<Ts>)

  type Chain = seq<Entry>

  // ---- One chain ----

  predicate GloballyVisible(e: Entry, readTs: Ts)
  {
    e.begin.Some? && e.begin.value <= readTs && (e.end.Some? ==> e.end.value > readTs)
  }

  /** `visible_version_for(..).is_some()`. */
  predicate VisibleIn(c: Chain, reader: TxnId, readTs: Ts)
  {
    exists i :: 0 <= i < |c| && (c[i].creator == reader || GloballyVisible(c[i], readTs))
  }

  /** `is_prunable`. */
  predicate Prunable(c: Chain, watermark: Ts)
  {
    c == [] || (c[0].begin.Some? && c[0].end.None? && c[0].begin.value <= watermark)
  }

  function MarkCommitted(c: Chain, t: TxnId, ts: Ts): (r: Chain)
    ensures |r| == |c|
  {
    seq(|c|, i requires 0 <= i < |c| => if c[i].creator == t then c[i].(begin := Some(ts)) else c[i])
  }

  function RemoveCreator(c: Chain, t: TxnId): Chain
  {
    if c == [] then [] else
      var rest := RemoveCreator(c[..|c| - 1], t);
      if c[|c| - 1].creator == t then rest else rest + [c[|c| - 1]]
  }

  // ---- The store and the manager ----

  datatype State = State(
    chains: map<Rid, Chain>,
    writeSets: map<TxnId, seq<Rid>>,
    candidates: map<Ts, seq<Rid>>,
    active: map<TxnId, Ts>,
    nextTxn: TxnId,
    nextTs: Ts)

  /** The history that is never pruned: the latest insert at each row id, and what became of it.
      `Aborted(at)` records the next timestamp at the time of the abort. */
  datatype Fate = Uncommitted | Committed(ts: Ts) | Aborted(at: Ts)
  datatype Version = Version(creator: TxnId, fate: Fate)
  type History = map<Rid, Version>

  /** A row that was there before this history began is visible to everyone. */
  predicate Visible(h: History, rid: Rid, reader: TxnId, readTs: Ts)
  {
    rid !in h || (!h[rid].fate.Aborted? && (h[rid].creator == reader || (h[rid].fate.Committed? && h[rid].fate.ts <= readTs)))
  }

  predicate LiveRow(h: History, rid: Rid)
  {
    rid in h ==> !h[rid].fate.Aborted?
  }

  /** `is_visible_to`. */
  predicate VisibleTo(s: State, rid: Rid, reader: TxnId, readTs: Ts)
  {
    rid in s.chains ==> VisibleIn(s.chains[rid], reader, readTs)
  }

  // ---- Invariants ----

  predicate Listed(s: State, ts: Ts, rid: Rid)
  {
    ts in s.candidates && rid in s.candidates[ts]
  }

  /** The one entry a version leaves in its chain. */
  function ChainOf(v: Version): Chain
  {
    match v.fate
    case Uncommitted => [Entry(v.creator, None, None)]
    case Committed(ts) => [Entry(v.creator, Some(ts), None)]
    case Aborted(_) => []
  }

  predicate AllActiveFrom(s: State, ts: Ts)
  {
    forall t :: t in s.active ==> ts <= s.active[t]
  }

  predicate FateOk(s: State, h: History, rid: Rid)
    requires rid in h
  {
    var v := h[rid];
    match v.fate
    case Uncommitted => rid in s.chains && v.creator in s.active && v.creator in s.writeSets && rid in s.writeSets[v.creator]
    case Committed(ts) => ts < s.nextTs && v.creator !in s.active && (if rid in s.chains then Listed(s, ts, rid) else AllActiveFrom(s, ts))
    case Aborted(at) => at <= s.nextTs && (rid in s.chains ==> Listed(s, at, rid))
  }

  predicate RidOk(s: State, h: History, rid: Rid)
  {
    && (rid in s.chains ==> rid in h && s.chains[rid] == ChainOf(h[rid]))
    && (rid in h ==> FateOk(s, h, rid))
  }

  predicate WritesOk(s: State, h: History, t: TxnId)
  {
    t in s.writeSets ==>
      t in s.active && forall i :: 0 <= i < |s.writeSets[t]| ==> s.writeSets[t][i] in h && h[s.writeSets[t][i]] == Version(t, Uncommitted)
  }

  predicate ActiveOk(s: State, t: TxnId)
  {
    t in s.active ==> t < s.nextTxn && s.active[t] < s.nextTs
  }

  predicate CandidateOk(s: State, ts: Ts)
  {
    ts in s.candidates ==> ts <= s.nextTs
  }

  predicate CreatorOk(s: State, h: History, rid: Rid)
  {
    rid in h ==> h[rid].creator < s.nextTxn
  }

  ghost predicate Inv(s: State, h: History)
  {
    && (forall rid :: RidOk(s, h, rid)) && (forall t :: WritesOk(s, h, t)) && (forall t :: ActiveOk(s, t))
    && (forall ts :: CandidateOk(s, ts)) && (forall rid :: CreatorOk(s, h, rid))
  }

  /** The main theorem, for every state that satisfies the invariant. */
  lemma {:induction false} VisibilityIsHistory(s: State, h: History, rid: Rid, reader: TxnId)
    requires Inv(s, h) && reader in s.active && LiveRow(h, rid)
    ensures VisibleTo(s, rid, reader, s.active[reader]) <==> Visible(h, rid, reader, s.active[reader])
  {
    assert RidOk(s, h, rid);
    if rid in s.chains {
      assert s.chains[rid] == [s.chains[rid][0]];
      assert VisibleIn(s.chains[rid], reader, s.active[reader]) <==>
             s.chains[rid][0].creator == reader || GloballyVisible(s.chains[rid][0], s.active[reader]);
    }
  }

  // ---- Steps, on values ----

  lemma {:induction false} BeginKeeps(s: State, h: History, s': State)
    requires Inv(s, h) && s' == s.(active := s.active[s.nextTxn := s.nextTs], nextTxn := s.nextTxn + 1, nextTs := s.nextTs + 1)
    ensures Inv(s', h)
  {
    forall rid ensures RidOk(s', h, rid) { assert RidOk(s, h, rid) && CreatorOk(s, h, rid); }
    forall t ensures WritesOk(s', h, t) { assert WritesOk(s, h, t); }
    forall t ensures ActiveOk(s', t) { assert ActiveOk(s, t); }
    forall ts ensures CandidateOk(s', ts) { assert CandidateOk(s, ts); }
    forall rid ensures CreatorOk(s', h, rid) { assert CreatorOk(s, h, rid); }
  }

  function WriteSet(s: State, t: TxnId): seq<Rid>
  {
    if t in s.writeSets then s.writeSets[t] else []
  }

  function ChainAt(s: State, rid: Rid): Chain
  {
    if rid in s.chains then s.chains[rid] else []
  }

  lemma {:induction false} InsertKeeps(s: State, h: History, t: TxnId, rid: Rid, s': State, h': History)
    requires Inv(s, h) && t in s.active && (rid in h ==> h[rid].fate.Aborted?)
    requires s' == s.(chains := s.chains[rid := [Entry(t, None, None)] + ChainAt(s, rid)], writeSets := s.writeSets[t := WriteSet(s, t) + [rid]])
    requires h' == h[rid := Version(t, Uncommitted)]
    ensures Inv(s', h')
  {
    assert RidOk(s, h, rid) && ActiveOk(s, t) && WritesOk(s, h, t);
    forall q ensures RidOk(s', h', q) {
      assert RidOk(s, h, q);
      if q == rid { assert (WriteSet(s, t) + [rid])[|WriteSet(s, t)|] == rid; }
    }
    forall u ensures WritesOk(s', h', u) {
      assert WritesOk(s, h, u);
      if u == t { assert forall i :: 0 <= i < |WriteSet(s, t)| ==> s'.writeSets[t][i] == WriteSet(s, t)[i]; }
    }
    forall u ensures ActiveOk(s', u) { assert ActiveOk(s, u); }
    forall ts ensures CandidateOk(s', ts) { assert CandidateOk(s, ts); }
    forall q ensures CreatorOk(s', h', q) { assert CreatorOk(s, h, q); }
  }

  function CommittedHistory(h: History, t: TxnId, ts: Ts): History
  {
    map rid | rid in h :: if h[rid] == Version(t, Uncommitted) then Version(t, Committed(ts)) else h[rid]
  }

  function AbortedHistory(h: History, t: TxnId, at: Ts): History
  {
    map rid | rid in h :: if h[rid] == Version(t, Uncommitted) then Version(t, Aborted(at)) else h[rid]
  }

  /** What marking the rows of `t` as committed does to each chain. */
  predicate MarkedAt(before: map<Rid, Chain>, after: map<Rid, Chain>, rids: set<Rid>, t: TxnId, ts: Ts, rid: Rid)
  {
    && (rid in after <==> rid in before)
    && (rid in before ==> after[rid] == if rid in rids then MarkCommitted(before[rid], t, ts) else before[rid])
  }

  predicate RemovedAt(before: map<Rid, Chain>, after: map<Rid, Chain>, rids: set<Rid>, t: TxnId, rid: Rid)
  {
    && (rid in after <==> rid in before)
    && (rid in before ==> after[rid] == if rid in rids then RemoveCreator(before[rid], t) else before[rid])
  }

  function Rids(rids: seq<Rid>): set<Rid>
  {
    set r | r in rids
  }

  /** More rows listed under `ts`, nothing else. */
  predicate ListedMore(s: State, s': State, ts: Ts, rids: seq<Rid>)
  {
    && ts in s'.candidates && s'.candidates == s.candidates[ts := s'.candidates[ts]]
    && s'.candidates[ts] == (if ts in s.candidates then s.candidates[ts] else []) + rids
  }

  lemma {:induction false} OwnRows(s: State, h: History, t: TxnId, rid: Rid)
    requires Inv(s, h)
    ensures rid in WriteSet(s, t) <==> rid in h && h[rid] == Version(t, Uncommitted)
  {
    assert RidOk(s, h, rid) && WritesOk(s, h, t);
  }

  /** The state after `t` commits at the next timestamp, before pruning. */
  ghost predicate Commits(s: State, t: TxnId, s': State)
  {
    && s' == s.(chains := s'.chains, candidates := s'.candidates, writeSets := s.writeSets - {t}, active := s.active - {t}, nextTs := s.nextTs + 1)
    && (if t in s.writeSets then ListedMore(s, s', s.nextTs, s.writeSets[t]) else s'.candidates == s.candidates)
    && forall rid :: MarkedAt(s.chains, s'.chains, Rids(WriteSet(s, t)), t, s.nextTs, rid)
  }

  lemma {:induction false} CommitRid(s: State, h: History, t: TxnId, s': State, h': History, rid: Rid)
    requires Inv(s, h) && t in s.active && Commits(s, t, s') && h' == CommittedHistory(h, t, s.nextTs)
    ensures RidOk(s', h', rid)
  {
    assert RidOk(s, h, rid) && MarkedAt(s.chains, s'.chains, Rids(WriteSet(s, t)), t, s.nextTs, rid);
    OwnRows(s, h, t, rid);
    if rid in h && h[rid] == Version(t, Uncommitted) {
      assert MarkCommitted([Entry(t, None, None)], t, s.nextTs) == [Entry(t, Some(s.nextTs), None)];
      var mine := s.writeSets[t];
      var i :| 0 <= i < |mine| && mine[i] == rid;
      var before := if s.nextTs in s.candidates then s.candidates[s.nextTs] else [];
      assert s'.candidates[s.nextTs][|before| + i] == rid;
    } else if rid in h && h[rid].fate.Committed? && rid in s.chains {
      assert Listed(s', h[rid].fate.ts, rid);
    }
  }

  lemma {:induction false} CommitKeeps(s: State, h: History, t: TxnId, s': State, h': History)
    requires Inv(s, h) && t in s.active && Commits(s, t, s') && h' == CommittedHistory(h, t, s.nextTs)
    ensures Inv(s', h')
  {
    forall rid ensures RidOk(s', h', rid) { CommitRid(s, h, t, s', h', rid); }
    forall u ensures WritesOk(s', h', u) { assert WritesOk(s, h, u); }
    forall u ensures ActiveOk(s', u) { assert ActiveOk(s, u); }
    forall ts ensures CandidateOk(s', ts) { assert CandidateOk(s, ts); }
    forall rid ensures CreatorOk(s', h', rid) { assert CreatorOk(s, h, rid); }
  }

  /** The state after `t` aborts, before pruning. */
  ghost predicate Aborts(s: State, t: TxnId, s': State)
  {
    && s' == s.(chains := s'.chains, candidates := s'.candidates, writeSets := s.writeSets - {t}, active := s.active - {t})
    && (forall rid :: RemovedAt(s.chains, s'.chains, Rids(WriteSet(s, t)), t, rid))
    && EmptiedListed(s, s', t)
  }

  /** The rows whose chain the abort emptied are listed under the next timestamp. */
  ghost predicate EmptiedListed(s: State, s': State, t: TxnId)
  {
    && (forall ts, rid :: Listed(s', ts, rid) <==> Listed(s, ts, rid) || (ts == s.nextTs && EmptiedBy(s, s', t, rid)))
    && (forall ts :: ts in s'.candidates ==> ts in s.candidates || ts == s.nextTs)
  }

  predicate EmptiedBy(s: State, s': State, t: TxnId, rid: Rid)
  {
    rid in WriteSet(s, t) && rid in s'.chains && s'.chains[rid] == []
  }

  lemma {:induction false} AbortRid(s: State, h: History, t: TxnId, s': State, h': History, rid: Rid)
    requires Inv(s, h) && t in s.active && Aborts(s, t, s') && h' == AbortedHistory(h, t, s.nextTs)
    ensures RidOk(s', h', rid)
  {
    assert RidOk(s, h, rid) && RemovedAt(s.chains, s'.chains, Rids(WriteSet(s, t)), t, rid);
    OwnRows(s, h, t, rid);
    if rid in h && h[rid] == Version(t, Uncommitted) {
      assert RemoveCreator([Entry(t, None, None)], t) == [] by { assert [Entry(t, None, None)][..0] == []; }
      assert EmptiedBy(s, s', t, rid);
      assert Listed(s', s.nextTs, rid);
    } else if rid in h && h[rid].fate.Committed? && rid in s.chains {
      assert Listed(s', h[rid].fate.ts, rid);
    } else if rid in h && h[rid].fate.Aborted? && rid in s.chains {
      assert Listed(s', h[rid].fate.at, rid);
    }
  }

  lemma {:induction false} AbortKeeps(s: State, h: History, t: TxnId, s': State, h': History)
    requires Inv(s, h) && t in s.active && Aborts(s, t, s') && h' == AbortedHistory(h, t, s.nextTs)
    ensures Inv(s', h')
  {
    forall rid ensures RidOk(s', h', rid) { AbortRid(s, h, t, s', h', rid); }
    forall u ensures WritesOk(s', h', u) { assert WritesOk(s, h, u); }
    forall u ensures ActiveOk(s', u) { assert ActiveOk(s, u); }
    forall ts ensures CandidateOk(s', ts) { assert CandidateOk(s, ts); }
    forall rid ensures CreatorOk(s', h', rid) { assert CreatorOk(s, h, rid); }
  }

  // ---- Pruning ----

  predicate Due(s: State, w: Ts, rid: Rid)
  {
    exists ts :: ts in s.candidates && ts <= w && rid in s.candidates[ts]
  }

  /** What pruning at the watermark removes. */
  predicate PrunedAt(s: State, s': State, w: Ts, rid: Rid)
  {
    && (rid in s'.chains <==> rid in s.chains && !(Due(s, w, rid) && Prunable(s.chains[rid], w)))
    && (rid in s'.chains ==> s'.chains[rid] == s.chains[rid])
  }

  ghost predicate Prunes(s: State, w: Ts, s': State)
  {
    && s' == s.(chains := s'.chains, candidates := map ts | ts in s.candidates && w < ts :: s.candidates[ts])
    && forall rid :: PrunedAt(s, s', w, rid)
  }

  lemma {:induction false} PruneRid(s: State, h: History, w: Ts, s': State, rid: Rid)
    requires Inv(s, h) && Prunes(s, w, s') && AllActiveFrom(s, w) && w <= s.nextTs
    ensures RidOk(s', h, rid)
  {
    assert RidOk(s, h, rid) && PrunedAt(s, s', w, rid);
    if rid in h && rid in s.chains && h[rid].fate.Committed? {
      assert Listed(s, h[rid].fate.ts, rid);
      if rid in s'.chains { assert w < h[rid].fate.ts; }
    } else if rid in h && rid in s.chains && h[rid].fate.Aborted? {
      assert Listed(s, h[rid].fate.at, rid);
      if rid in s'.chains { assert w < h[rid].fate.at; }
    }
  }

  lemma {:induction false} PruneKeeps(s: State, h: History, w: Ts, s': State)
    requires Inv(s, h) && Prunes(s, w, s') && AllActiveFrom(s, w) && w <= s.nextTs
    ensures Inv(s', h)
    ensures s.active == map[] && w == s.nextTs ==> s'.chains == map[]
  {
    forall rid ensures RidOk(s', h, rid) { PruneRid(s, h, w, s', rid); }
    forall u ensures WritesOk(s', h, u) { assert WritesOk(s, h, u); }
    forall u ensures ActiveOk(s', u) { assert ActiveOk(s, u); }
    forall ts ensures CandidateOk(s', ts) { assert CandidateOk(s, ts); }
    forall rid ensures CreatorOk(s', h, rid) { assert CreatorOk(s, h, rid); }
    if s.active == map[] && w == s.nextTs {
      forall rid ensures rid !in s'.chains { NothingLeft(s, h, w, s', rid); }
    }
  }

  /** With nobody active every chain is due and prunable. */
  lemma {:induction false} NothingLeft(s: State, h: History, w: Ts, s': State, rid: Rid)
    requires Inv(s, h) && Prunes(s, w, s') && s.active == map[] && w == s.nextTs
    ensures rid !in s'.chains
  {
    assert RidOk(s, h, rid) && PrunedAt(s, s', w, rid);
    if rid in s.chains {
      var ts := if h[rid].fate.Committed? then h[rid].fate.ts else if h[rid].fate.Aborted? then h[rid].fate.at else 0;
      assert Listed(s, ts, rid) && CandidateOk(s, ts);
    }
  }

  // ---- Aborted rows ----

  /** Some reader that was active at the abort still is. */
  ghost predicate StillNeeded(s: State, at: Ts)
  {
    exists t :: t in s.active && s.active[t] < at
  }

  /** An aborted row is hidden from everyone who was active at the abort. */
  ghost predicate HiddenOk(s: State, h: History, rid: Rid)
  {
    rid in h && h[rid].fate.Aborted? && StillNeeded(s, h[rid].fate.at) ==> rid in s.chains
  }

  /** Hidden means not visible, whoever asks. */
  lemma {:induction false} HiddenMeansInvisible(s: State, h: History, rid: Rid, reader: TxnId, readTs: Ts)
    requires Inv(s, h) && rid in h && h[rid].fate.Aborted?
    ensures VisibleTo(s, rid, reader, readTs) <==> rid !in s.chains
  {
    assert RidOk(s, h, rid);
  }

  /** Exactly when one prune keeps an aborted row hidden from a reader that must not see it: when no
      candidate list that is due names the row. */
  lemma {:induction false} PruneHidesIff(s: State, h: History, w: Ts, s': State, rid: Rid, reader: TxnId)
    requires Inv(s, h) && Prunes(s, w, s') && AllActiveFrom(s, w) && w <= s.nextTs && reader in s.active
    requires rid in h && h[rid].fate.Aborted? && s.active[reader] < h[rid].fate.at && rid in s.chains
    ensures !VisibleTo(s', rid, reader, s.active[reader]) <==> !Due(s, w, rid)
  {
    PruneKeeps(s, h, w, s');
    assert RidOk(s, h, rid) && PrunedAt(s, s', w, rid);
    HiddenMeansInvisible(s', h, rid, reader, s.active[reader]);
  }

  /** A row is listed only under the timestamp of its own fate. */
  predicate ListedOk(s: State, h: History, ts: Ts, rid: Rid)
  {
    Listed(s, ts, rid) ==> rid in s.chains && rid in h && (h[rid].fate == Committed(ts) || h[rid].fate == Aborted(ts))
  }

  /** Holds in every run whose inserts reuse a row id only once its old chain is gone. */
  ghost predicate Tidy(s: State, h: History)
  {
    Inv(s, h) && (forall ts, rid :: ListedOk(s, h, ts, rid)) && forall rid :: HiddenOk(s, h, rid)
  }

  lemma {:induction false} TidyBegin(s: State, h: History, s': State)
    requires Tidy(s, h) && s' == s.(active := s.active[s.nextTxn := s.nextTs], nextTxn := s.nextTxn + 1, nextTs := s.nextTs + 1)
    ensures Tidy(s', h)
  {
    BeginKeeps(s, h, s');
    forall ts, rid ensures ListedOk(s', h, ts, rid) { assert ListedOk(s, h, ts, rid); }
    forall rid ensures HiddenOk(s', h, rid) {
      assert HiddenOk(s, h, rid) && RidOk(s, h, rid);
      if rid in h && h[rid].fate.Aborted? && StillNeeded(s', h[rid].fate.at) {
        var t :| t in s'.active && s'.active[t] < h[rid].fate.at;
        assert t != s.nextTxn;
        assert StillNeeded(s, h[rid].fate.at);
      }
    }
  }

  lemma {:induction false} TidyInsert(s: State, h: History, t: TxnId, rid: Rid, s': State, h': History)
    requires Tidy(s, h) && t in s.active && (rid in h ==> h[rid].fate.Aborted?) && rid !in s.chains
    requires s' == s.(chains := s.chains[rid := [Entry(t, None, None)] + ChainAt(s, rid)], writeSets := s.writeSets[t := WriteSet(s, t) + [rid]])
    requires h' == h[rid := Version(t, Uncommitted)]
    ensures Tidy(s', h')
  {
    InsertKeeps(s, h, t, rid, s', h');
    forall ts, q ensures ListedOk(s', h', ts, q) { assert ListedOk(s, h, ts, q); }
    forall q ensures HiddenOk(s', h', q) { assert HiddenOk(s, h, q); }
  }

  lemma {:induction false} TidyCommit(s: State, h: History, t: TxnId, s': State, h': History)
    requires Tidy(s, h) && t in s.active && Commits(s, t, s') && h' == CommittedHistory(h, t, s.nextTs)
    ensures Tidy(s', h')
  {
    CommitKeeps(s, h, t, s', h');
    forall ts, rid ensures ListedOk(s', h', ts, rid) {
      assert ListedOk(s, h, ts, rid) && MarkedAt(s.chains, s'.chains, Rids(WriteSet(s, t)), t, s.nextTs, rid) && RidOk(s, h, rid);
      OwnRows(s, h, t, rid);
    }
    forall rid ensures HiddenOk(s', h', rid) {
      assert HiddenOk(s, h, rid) && MarkedAt(s.chains, s'.chains, Rids(WriteSet(s, t)), t, s.nextTs, rid);
      if rid in h' && h'[rid].fate.Aborted? && StillNeeded(s', h'[rid].fate.at) {
        var u :| u in s'.active && s'.active[u] < h'[rid].fate.at;
        assert u in s.active && StillNeeded(s, h[rid].fate.at);
      }
    }
  }

  lemma {:induction false} TidyAbort(s: State, h: History, t: TxnId, s': State, h': History)
    requires Tidy(s, h) && t in s.active && Aborts(s, t, s') && h' == AbortedHistory(h, t, s.nextTs)
    ensures Tidy(s', h')
  {
    AbortKeeps(s, h, t, s', h');
    forall ts, rid ensures ListedOk(s', h', ts, rid) {
      assert ListedOk(s, h, ts, rid) && RemovedAt(s.chains, s'.chains, Rids(WriteSet(s, t)), t, rid) && RidOk(s, h, rid);
      OwnRows(s, h, t, rid);
    }
    forall rid ensures HiddenOk(s', h', rid) {
      assert HiddenOk(s, h, rid) && RemovedAt(s.chains, s'.chains, Rids(WriteSet(s, t)), t, rid) && RidOk(s, h, rid);
      if rid in h' && h'[rid].fate.Aborted? && StillNeeded(s', h'[rid].fate.at) {
        var u :| u in s'.active && s'.active[u] < h'[rid].fate.at;
        assert u in s.active;
        if h[rid].fate.Aborted? { assert StillNeeded(s, h[rid].fate.at); }
      }
    }
  }

  lemma {:induction false} DueIsPast(s: State, h: History, w: Ts, rid: Rid)
    requires Tidy(s, h) && Due(s, w, rid)
    ensures rid in h && ((h[rid].fate.Committed? && h[rid].fate.ts <= w) || (h[rid].fate.Aborted? && h[rid].fate.at <= w))
  {
    var ts :| ts in s.candidates && ts <= w && rid in s.candidates[ts];
    assert ListedOk(s, h, ts, rid);
  }

  lemma {:induction false} TidyPrune(s: State, h: History, w: Ts, s': State)
    requires Tidy(s, h) && Prunes(s, w, s') && AllActiveFrom(s, w) && w <= s.nextTs
    ensures Tidy(s', h)
  {
    PruneKeeps(s, h, w, s');
    forall ts, rid ensures ListedOk(s', h, ts, rid) {
      assert ListedOk(s, h, ts, rid) && PrunedAt(s, s', w, rid);
      if Due(s, w, rid) { DueIsPast(s, h, w, rid); }
    }
    forall rid ensures HiddenOk(s', h, rid) {
      assert HiddenOk(s, h, rid) && PrunedAt(s, s', w, rid);
      if Due(s, w, rid) { DueIsPast(s, h, w, rid); }
    }
  }

  // ---- The transaction manager and its version store ----

  datatype Outcome = Done | UnknownTransaction | AbortInProgress

  predicate IsOldest(s: State, w: Ts)
  {
    && AllActiveFrom(s, w) && w <= s.nextTs
    && if s.active == map[] then w == s.nextTs else exists t :: t in s.active && w == s.active[t]
  }

  ghost predicate PrunesAtOldest(s: State, s': State)
  {
    exists w :: IsOldest(s, w) && Prunes(s, w, s')
  }

  ghost predicate CommitsThenPrunes(s: State, t: TxnId, s': State)
  {
    exists mid :: Commits(s, t, mid) && PrunesAtOldest(mid, s')
  }

  ghost predicate AbortsThenPrunes(s: State, t: TxnId, s': State)
  {
    exists mid :: Aborts(s, t, mid) && PrunesAtOldest(mid, s')
  }

  class TransactionManager {
    var s: State
    var aborting: set<TxnId>
    ghost var h: History

    constructor (highestSeen: Option<TxnId>)
      ensures Tidy(s, h) && h == map[] && aborting == {}
      ensures s == State(map[], map[], map[], map[], if highestSeen.Some? then highestSeen.value + 1 else 0, 0)
    {
      s := State(map[], map[], map[], map[], if highestSeen.Some? then highestSeen.value + 1 else 0, 0);
      aborting := {};
      h := map[];
    }

    /** `begin`: a fresh id and a fresh read timestamp. */
    method Begin() returns (t: TxnId)
      requires Inv(s, h)
      modifies this`s
      ensures Inv(s, h) && (old(Tidy(s, h)) ==> Tidy(s, h))
      ensures t == old(s.nextTxn) && t !in old(s.active)
      ensures s == old(s).(active := old(s.active)[t := old(s.nextTs)], nextTxn := t + 1, nextTs := old(s.nextTs) + 1)
    {
      t := s.nextTxn;
      assert ActiveOk(s, t);
      ghost var s0 := s;
      s := s.(active := s.active[t := s.nextTs], nextTxn := t + 1, nextTs := s.nextTs + 1);
      BeginKeeps(s0, h, s);
      if Tidy(s0, h) { TidyBegin(s0, h, s); }
    }

    /** `record_insert`. The heap gives out a row id again only after the row that had it is gone. */
    method RecordInsert(t: TxnId, rid: Rid)
      requires Inv(s, h) && t in s.active && (rid in h ==> h[rid].fate.Aborted?)
      modifies this`s, this`h
      ensures Inv(s, h) && (old(Tidy(s, h)) && rid !in old(s.chains) ==> Tidy(s, h)) && h == old(h)[rid := Version(t, Uncommitted)]
      ensures s == old(s).(chains := old(s.chains)[rid := [Entry(t, None, None)]], writeSets := old(s.writeSets)[t := WriteSet(old(s), t) + [rid]])
    {
      ghost var s0, h0 := s, h;
      assert RidOk(s, h, rid);
      assert [Entry(t, None, None)] + ChainAt(s, rid) == [Entry(t, None, None)];
      s := s.(chains := s.chains[rid := [Entry(t, None, None)] + ChainAt(s, rid)], writeSets := s.writeSets[t := WriteSet(s, t) + [rid]]);
      h := h[rid := Version(t, Uncommitted)];
      InsertKeeps(s0, h0, t, rid, s, h);
      if Tidy(s0, h0) && rid !in s0.chains { TidyInsert(s0, h0, t, rid, s, h); }
    }

    /** `is_visible_to`: look through the chain. */
    method IsVisibleTo(rid: Rid, reader: TxnId, readTs: Ts) returns (b: bool)
      ensures b == VisibleTo(s, rid, reader, readTs)
    {
      if rid !in s.chains { return true; }
      var c := s.chains[rid];
      for i := 0 to |c|
        invariant forall j :: 0 <= j < i ==> !(c[j].creator == reader || GloballyVisible(c[j], readTs))
      {
        if c[i].creator == reader || GloballyVisible(c[i], readTs) { return true; }
      }
      return false;
    }

    /** `oldest_active_read_ts`. */
    method OldestReadTs() returns (w: Ts)
      requires Inv(s, h)
      ensures IsOldest(s, w)
    {
      w := s.nextTs;
      var left := s.active.Keys;
      while left != {}
        invariant left <= s.active.Keys && w <= s.nextTs && forall t :: t in s.active && t !in left ==> w <= s.active[t]
        invariant (w == s.nextTs && left == s.active.Keys) || exists t :: t in s.active && w == s.active[t]
        decreases |left|
      {
        var t :| t in left;
        assert ActiveOk(s, t);
        if s.active[t] < w { w := s.active[t]; }
        left := left - {t};
      }
    }

    /** `commit`: the rows of `t` get the next timestamp, `t` leaves the table, and the store is pruned. */
    method Commit(t: TxnId) returns (o: Outcome)
      requires Inv(s, h)
      modifies this
      ensures Inv(s, h) && (old(Tidy(s, h)) ==> Tidy(s, h))
      ensures o == (if t !in old(s.active) then UnknownTransaction else if t in old(aborting) then AbortInProgress else Done)
      ensures aborting == old(aborting)
      ensures o != Done ==> s == old(s) && h == old(h)
      ensures o == Done ==> h == CommittedHistory(old(h), t, old(s.nextTs)) && CommitsThenPrunes(old(s), t, s)
      ensures o == Done && s.active == map[] ==> s.chains == map[]
    {
      if t !in s.active { return UnknownTransaction; }
      if t in aborting { return AbortInProgress; }
      ghost var s0, h0 := s, h;
      var ts := s.nextTs;
      var chains := MarkAll(s.chains, WriteSet(s, t), t, ts);
      var candidates := s.candidates;
      if t in s.writeSets { candidates := candidates[ts := (if ts in candidates then candidates[ts] else []) + s.writeSets[t]]; }
      s := s.(chains := chains, candidates := candidates, writeSets := s.writeSets - {t}, active := s.active - {t}, nextTs := ts + 1);
      h := CommittedHistory(h, t, ts);
      CommitKeeps(s0, h0, t, s, h);
      if Tidy(s0, h0) { TidyCommit(s0, h0, t, s, h); }
      Prune();
      return Done;
    }

    /** `begin_abort`. */
    method BeginAbort(t: TxnId) returns (o: Outcome)
      modifies this`aborting
      ensures o == (if t !in s.active then UnknownTransaction else if t in old(aborting) then AbortInProgress else Done)
      ensures aborting == if o == Done then old(aborting) + {t} else old(aborting)
    {
      if t !in s.active { return UnknownTransaction; }
      if t in aborting { return AbortInProgress; }
      aborting := aborting + {t};
      return Done;
    }

    /** `cancel_abort`. */
    method CancelAbort(t: TxnId)
      modifies this`aborting
      ensures aborting == old(aborting) - {t}
    {
      aborting := aborting - {t};
    }

    /** `finish_abort`: the rows of `t` lose their versions, `t` leaves the table, and the store is pruned. */
    method FinishAbort(t: TxnId) returns (o: Outcome)
      requires Inv(s, h)
      modifies this
      ensures Inv(s, h) && (old(Tidy(s, h)) ==> Tidy(s, h))
      ensures o == if t in old(s.active) then Done else UnknownTransaction
      ensures aborting == if o == Done then old(aborting) - {t} else old(aborting)
      ensures o != Done ==> s == old(s) && h == old(h)
      ensures o == Done ==> h == AbortedHistory(old(h), t, old(s.nextTs)) && AbortsThenPrunes(old(s), t, s)
      ensures o == Done && s.active == map[] ==> s.chains == map[]
    {
      if t !in s.active { return UnknownTransaction; }
      ghost var s0, h0 := s, h;
      aborting := aborting - {t};
      var chains, emptied := RemoveAll(s.chains, WriteSet(s, t), t);
      var candidates := s.candidates;
      if emptied != [] { candidates := candidates[s.nextTs := (if s.nextTs in candidates then candidates[s.nextTs] else []) + emptied]; }
      s := s.(chains := chains, candidates := candidates, writeSets := s.writeSets - {t}, active := s.active - {t});
      h := AbortedHistory(h, t, s.nextTs);
      ListsEmptied(s0, s, t, emptied);
      AbortKeeps(s0, h0, t, s, h);
      if Tidy(s0, h0) { TidyAbort(s0, h0, t, s, h); }
      Prune();
      return Done;
    }

    /** `prune` at the oldest active read timestamp. */
    method Prune()
      requires Inv(s, h)
      modifies this`s
      ensures Inv(s, h) && (old(Tidy(s, h)) ==> Tidy(s, h))
      ensures PrunesAtOldest(old(s), s)
      ensures s.active == map[] ==> s.chains == map[]
    {
      var w := OldestReadTs();
      var chains := s.chains;
      var due := set ts: Ts | ts in s.candidates && ts <= w;
      var left := due;
      while left != {}
        invariant s == old(s) && left <= due && forall rid :: PruningAt(s, chains, w, due - left, rid)
        decreases |left|
      {
        var ts: Ts :| ts in left;
        ghost var was := chains;
        chains := PruneList(chains, s.candidates[ts], w);
        forall rid ensures PruningAt(s, chains, w, due - (left - {ts}), rid) {
          assert PruningAt(s, was, w, due - left, rid) && ListPrunedAt(was, chains, Rids(s.candidates[ts]), w, rid);
        }
        left := left - {ts};
      }
      ghost var s0 := s;
      s := s.(chains := chains, candidates := map ts | ts in s.candidates && w < ts :: s.candidates[ts]);
      forall rid ensures PrunedAt(s0, s, w, rid) { assert PruningAt(s0, chains, w, due - left, rid); }
      PruneKeeps(s0, h, w, s);
      if Tidy(s0, h) { TidyPrune(s0, h, w, s); }
      assert IsOldest(s0, w) && Prunes(s0, w, s);
    }
  }

  // ---- Loops of the version store ----

  /** The loop of `commit_versions`. */
  method MarkAll(chains: map<Rid, Chain>, rids: seq<Rid>, t: TxnId, ts: Ts) returns (r: map<Rid, Chain>)
    ensures forall rid :: MarkedAt(chains, r, Rids(rids), t, ts, rid)
  {
    r := chains;
    for i := 0 to |rids|
      invariant forall rid :: MarkedAt(chains, r, Rids(rids[..i]), t, ts, rid)
    {
      ghost var was, done := r, Rids(rids[..i + 1]);
      assert done == Rids(rids[..i]) + {rids[i]} by { assert rids[..i + 1] == rids[..i] + [rids[i]]; }
      if rids[i] in r { r := r[rids[i] := MarkCommitted(r[rids[i]], t, ts)]; }
      forall rid ensures MarkedAt(chains, r, done, t, ts, rid) {
        assert MarkedAt(chains, was, Rids(rids[..i]), t, ts, rid);
        if rid in chains { MarkTwice(chains[rid], t, ts); }
      }
    }
    assert rids[..|rids|] == rids;
  }

  lemma {:induction false} MarkTwice(c: Chain, t: TxnId, ts: Ts)
    ensures MarkCommitted(MarkCommitted(c, t, ts), t, ts) == MarkCommitted(c, t, ts)
  {
  }

  lemma {:induction false} RemoveNone(c: Chain, t: TxnId)
    requires forall i :: 0 <= i < |c| ==> c[i].creator != t
    ensures RemoveCreator(c, t) == c
    decreases |c|
  {
    if c != [] { RemoveNone(c[..|c| - 1], t); }
  }

  lemma {:induction false} RemoveLeavesNone(c: Chain, t: TxnId)
    ensures forall i :: 0 <= i < |RemoveCreator(c, t)| ==> RemoveCreator(c, t)[i].creator != t
    decreases |c|
  {
    if c != [] { RemoveLeavesNone(c[..|c| - 1], t); }
  }

  /** The loop of `abort_versions`. */
  method RemoveAll(chains: map<Rid, Chain>, rids: seq<Rid>, t: TxnId) returns (r: map<Rid, Chain>, emptied: seq<Rid>)
    ensures forall rid :: RemovedAt(chains, r, Rids(rids), t, rid)
    ensures forall rid :: rid in emptied <==> rid in rids && rid in r && r[rid] == []
  {
    r, emptied := chains, [];
    for i := 0 to |rids|
      invariant forall rid :: RemovedAt(chains, r, Rids(rids[..i]), t, rid)
      invariant forall rid :: rid in emptied <==> rid in rids[..i] && rid in r && r[rid] == []
    {
      ghost var was, done := r, Rids(rids[..i + 1]);
      var q := rids[i];
      assert rids[..i + 1] == rids[..i] + [q];
      assert done == Rids(rids[..i]) + {q};
      if q in r {
        r := r[q := RemoveCreator(r[q], t)];
        if r[q] == [] { emptied := emptied + [q]; }
      }
      forall rid ensures RemovedAt(chains, r, done, t, rid) {
        assert RemovedAt(chains, was, Rids(rids[..i]), t, rid);
        if rid in chains { RemoveTwice(chains[rid], t); }
      }
      assert RemovedAt(chains, was, Rids(rids[..i]), t, q);
      if q in chains { RemoveTwice(chains[q], t); }
    }
    assert rids[..|rids|] == rids;
  }

  lemma {:induction false} RemoveTwice(c: Chain, t: TxnId)
    ensures RemoveCreator(RemoveCreator(c, t), t) == RemoveCreator(c, t)
  {
    RemoveLeavesNone(c, t);
    RemoveNone(RemoveCreator(c, t), t);
  }

  lemma {:induction false} ListsEmptied(s: State, s': State, t: TxnId, emptied: seq<Rid>)
    requires forall rid :: rid in emptied <==> rid in WriteSet(s, t) && rid in s'.chains && s'.chains[rid] == []
    requires s'.candidates == if emptied == [] then s.candidates
                              else s.candidates[s.nextTs := (if s.nextTs in s.candidates then s.candidates[s.nextTs] else []) + emptied]
    ensures EmptiedListed(s, s', t)
  {
    forall ts, rid ensures Listed(s', ts, rid) <==> Listed(s, ts, rid) || (ts == s.nextTs && EmptiedBy(s, s', t, rid)) {
      assert rid in emptied <==> EmptiedBy(s, s', t, rid);
    }
  }

  predicate DueIn(s: State, done: set<Ts>, rid: Rid)
  {
    exists ts :: ts in done && ts in s.candidates && rid in s.candidates[ts]
  }

  predicate PruningAt(s: State, chains: map<Rid, Chain>, w: Ts, done: set<Ts>, rid: Rid)
  {
    && (rid in chains <==> rid in s.chains && !(DueIn(s, done, rid) && Prunable(s.chains[rid], w)))
    && (rid in chains ==> chains[rid] == s.chains[rid])
  }

  predicate ListPrunedAt(before: map<Rid, Chain>, after: map<Rid, Chain>, rids: set<Rid>, w: Ts, rid: Rid)
  {
    && (rid in after <==> rid in before && !(rid in rids && Prunable(before[rid], w)))
    && (rid in after ==> after[rid] == before[rid])
  }

  method PruneList(chains: map<Rid, Chain>, rids: seq<Rid>, w: Ts) returns (r: map<Rid, Chain>)
    ensures forall rid :: ListPrunedAt(chains, r, Rids(rids), w, rid)
  {
    r := chains;
    for i := 0 to |rids|
      invariant forall rid :: ListPrunedAt(chains, r, Rids(rids[..i]), w, rid)
    {
      ghost var was, done := r, Rids(rids[..i + 1]);
      assert done == Rids(rids[..i]) + {rids[i]} by { assert rids[..i + 1] == rids[..i] + [rids[i]]; }
      if rids[i] in r && Prunable(r[rids[i]], w) { r := r - {rids[i]}; }
      forall rid ensures ListPrunedAt(chains, r, done, w, rid) { assert ListPrunedAt(chains, was, Rids(rids[..i]), w, rid); }
    }
    assert rids[..|rids|] == rids;
  }

  // ---- Exactly when an aborted row stays hidden ----

  ghost predicate Begins(s: State, h: History, s': State, h': History)
  {
    s' == s.(active := s.active[s.nextTxn := s.nextTs], nextTxn := s.nextTxn + 1, nextTs := s.nextTs + 1) && h' == h
  }

  ghost predicate Inserts(s: State, h: History, t: TxnId, rid: Rid, s': State, h': History)
  {
    && t in s.active && (rid in h ==> h[rid].fate.Aborted?) && h' == h[rid := Version(t, Uncommitted)]
    && s' == s.(chains := s.chains[rid := [Entry(t, None, None)] + ChainAt(s, rid)], writeSets := s.writeSets[t := WriteSet(s, t) + [rid]])
  }

  ghost predicate Finishes(s: State, h: History, t: TxnId, s': State, h': History)
  {
    && t in s.active
    && ((CommitsThenPrunes(s, t, s') && h' == CommittedHistory(h, t, s.nextTs))
        || (AbortsThenPrunes(s, t, s') && h' == AbortedHistory(h, t, s.nextTs)))
  }

  /** Anything any transaction may do. */
  ghost predicate Step(s: State, h: History, s': State, h': History)
  {
    Begins(s, h, s', h') || (exists t, rid :: Inserts(s, h, t, rid, s', h')) || exists t :: Finishes(s, h, t, s', h')
  }

  datatype Moment = Moment(s: State, h: History)

  ghost predicate IsRun(run: seq<Moment>)
  {
    run != [] && forall i :: 0 < i < |run| ==> Step(run[i - 1].s, run[i - 1].h, run[i].s, run[i].h)
  }

  /** No candidate list that names the row can come due while a reader at `readTs` is active. */
  predicate NoneTooEarly(s: State, rid: Rid, readTs: Ts)
  {
    forall ts :: Listed(s, ts, rid) ==> readTs < ts
  }

  /** As long as the reader is active and the row id is not reused, the row's chain is there. */
  ghost predicate Covered(s: State, h: History, rid: Rid, v: Version, reader: TxnId, readTs: Ts)
  {
    && Inv(s, h) && v.fate.Aborted? && v.creator < s.nextTxn && v.creator !in s.active && reader < s.nextTxn
    && rid in h && (h[rid].creator == v.creator ==> h[rid] == v)
    && (reader in s.active ==> s.active[reader] == readTs && (h[rid] == v ==> rid in s.chains && NoneTooEarly(s, rid, readTs)))
  }

  lemma {:induction false} BeginCovers(s: State, h: History, s': State, h': History, rid: Rid, v: Version, reader: TxnId, readTs: Ts)
    requires Covered(s, h, rid, v, reader, readTs) && Begins(s, h, s', h')
    ensures Covered(s', h', rid, v, reader, readTs)
  {
    BeginKeeps(s, h, s');
    assert forall ts :: Listed(s', ts, rid) <==> Listed(s, ts, rid);
  }

  lemma {:induction false} InsertCovers(s: State, h: History, t: TxnId, q: Rid, s': State, h': History, rid: Rid, v: Version, reader: TxnId, readTs: Ts)
    requires Covered(s, h, rid, v, reader, readTs) && Inserts(s, h, t, q, s', h')
    ensures Covered(s', h', rid, v, reader, readTs)
  {
    InsertKeeps(s, h, t, q, s', h');
    assert forall ts :: Listed(s', ts, rid) <==> Listed(s, ts, rid);
  }

  /** While the reader is active the watermark stays at or below its read timestamp. */
  lemma {:induction false} PruneSpares(s: State, s': State, w: Ts, rid: Rid, reader: TxnId)
    requires Prunes(s, w, s') && IsOldest(s, w) && reader in s.active && rid in s.chains && NoneTooEarly(s, rid, s.active[reader])
    ensures rid in s'.chains && NoneTooEarly(s', rid, s.active[reader])
  {
    assert PrunedAt(s, s', w, rid);
    if Due(s, w, rid) {
      var ts :| ts in s.candidates && ts <= w && rid in s.candidates[ts];
      assert Listed(s, ts, rid);
    }
    forall ts | Listed(s', ts, rid) ensures s.active[reader] < ts { assert Listed(s, ts, rid); }
  }

  lemma {:induction false} CommitCovers(s: State, h: History, t: TxnId, s': State, h': History, rid: Rid, v: Version, reader: TxnId, readTs: Ts)
    requires Covered(s, h, rid, v, reader, readTs) && t in s.active && CommitsThenPrunes(s, t, s') && h' == CommittedHistory(h, t, s.nextTs)
    ensures Covered(s', h', rid, v, reader, readTs)
  {
    var mid :| Commits(s, t, mid) && PrunesAtOldest(mid, s');
    var w :| IsOldest(mid, w) && Prunes(mid, w, s');
    CommitKeeps(s, h, t, mid, h');
    PruneKeeps(mid, h', w, s');
    if reader in mid.active && h[rid] == v {
      assert MarkedAt(s.chains, mid.chains, Rids(WriteSet(s, t)), t, s.nextTs, rid) && ActiveOk(s, reader);
      OwnRows(s, h, t, rid);
      forall ts | Listed(mid, ts, rid) ensures readTs < ts { assert ts == s.nextTs || Listed(s, ts, rid); }
      PruneSpares(mid, s', w, rid, reader);
    }
  }

  lemma {:induction false} AbortCovers(s: State, h: History, t: TxnId, s': State, h': History, rid: Rid, v: Version, reader: TxnId, readTs: Ts)
    requires Covered(s, h, rid, v, reader, readTs) && t in s.active && AbortsThenPrunes(s, t, s') && h' == AbortedHistory(h, t, s.nextTs)
    ensures Covered(s', h', rid, v, reader, readTs)
  {
    var mid :| Aborts(s, t, mid) && PrunesAtOldest(mid, s');
    var w :| IsOldest(mid, w) && Prunes(mid, w, s');
    AbortKeeps(s, h, t, mid, h');
    PruneKeeps(mid, h', w, s');
    if reader in mid.active && h[rid] == v {
      assert RemovedAt(s.chains, mid.chains, Rids(WriteSet(s, t)), t, rid) && ActiveOk(s, reader);
      forall ts | Listed(mid, ts, rid) ensures readTs < ts { assert ts == s.nextTs || Listed(s, ts, rid); }
      PruneSpares(mid, s', w, rid, reader);
    }
  }

  lemma {:induction false} StepCovers(s: State, h: History, s': State, h': History, rid: Rid, v: Version, reader: TxnId, readTs: Ts)
    requires Covered(s, h, rid, v, reader, readTs) && Step(s, h, s', h')
    ensures Covered(s', h', rid, v, reader, readTs)
  {
    if Begins(s, h, s', h') {
      BeginCovers(s, h, s', h', rid, v, reader, readTs);
    } else if t, q :| Inserts(s, h, t, q, s', h') {
      InsertCovers(s, h, t, q, s', h', rid, v, reader, readTs);
    } else {
      var t :| Finishes(s, h, t, s', h');
      if CommitsThenPrunes(s, t, s') && h' == CommittedHistory(h, t, s.nextTs) {
        CommitCovers(s, h, t, s', h', rid, v, reader, readTs);
      } else {
        AbortCovers(s, h, t, s', h', rid, v, reader, readTs);
      }
    }
  }

  /** If no candidate list that names an aborted row has a timestamp at or below the reader's, the row is
      hidden from the reader at the end of every run, whoever begins, inserts, commits and aborts. */
  lemma {:induction false} HiddenInEveryRun(run: seq<Moment>, rid: Rid, v: Version, reader: TxnId, readTs: Ts)
    requires IsRun(run) && Covered(run[0].s, run[0].h, rid, v, reader, readTs)
    ensures var last := run[|run| - 1];
            && Covered(last.s, last.h, rid, v, reader, readTs)
            && (reader in last.s.active && last.h[rid] == v ==> !VisibleTo(last.s, rid, reader, readTs))
    decreases |run|
  {
    var n := |run|;
    if n > 1 {
      var front := run[..n - 1];
      assert forall i :: 0 < i < |front| ==> Step(front[i - 1].s, front[i - 1].h, front[i].s, front[i].h) by {
        forall i | 0 < i < |front| ensures Step(front[i - 1].s, front[i - 1].h, front[i].s, front[i].h) {
          assert Step(run[i - 1].s, run[i - 1].h, run[i].s, run[i].h);
        }
      }
      HiddenInEveryRun(front, rid, v, reader, readTs);
      assert Step(run[n - 2].s, run[n - 2].h, run[n - 1].s, run[n - 1].h);
      StepCovers(run[n - 2].s, run[n - 2].h, run[n - 1].s, run[n - 1].h, rid, v, reader, readTs);
    }
    var last := run[n - 1];
    if reader in last.s.active && last.h[rid] == v { HiddenMeansInvisible(last.s, last.h, rid, reader, readTs); }
  }

  /** An abort whose prune reaches a candidate list that names an aborted row drops the row's chain. */
  lemma {:induction false} AbortUncovers(s: State, h: History, t: TxnId, s': State, rid: Rid, early: Ts)
    requires Inv(s, h) && t in s.active && AbortsThenPrunes(s, t, s') && rid in h && h[rid].fate.Aborted?
    requires rid in s.chains ==> Listed(s, early, rid)
    ensures s'.active == s.active - {t} && (rid in s'.chains ==> Listed(s', early, rid))
    ensures AllActiveFrom(s', early) && s'.active != map[] ==> rid !in s'.chains
  {
    var mid :| Aborts(s, t, mid) && PrunesAtOldest(mid, s');
    var w :| IsOldest(mid, w) && Prunes(mid, w, s');
    assert RidOk(s, h, rid) && RemovedAt(s.chains, mid.chains, Rids(WriteSet(s, t)), t, rid) && PrunedAt(mid, s', w, rid);
    OwnRows(s, h, t, rid);
    if rid in s.chains {
      assert Listed(mid, early, rid);
      if early <= w { assert Due(mid, w, rid); }
    }
  }

  /** Otherwise there is a run after which the reader sees the row: the transactions that hold the
      watermark down finish, and one more transaction comes and goes. */
  method Uncover(m: TransactionManager, rid: Rid, reader: TxnId, ghost early: Ts) returns (visible: bool)
    requires Inv(m.s, m.h) && rid in m.h && m.h[rid].fate.Aborted? && reader in m.s.active && rid in m.s.chains
    requires Listed(m.s, early, rid) && early <= m.s.active[reader]
    modifies m
    ensures Inv(m.s, m.h) && visible && rid in m.h && m.h[rid] == old(m.h[rid])
    ensures reader in m.s.active && m.s.active[reader] == old(m.s.active[reader]) && visible == VisibleTo(m.s, rid, reader, m.s.active[reader])
  {
    var readTs := m.s.active[reader];
    var older := set t | t in m.s.active && m.s.active[t] < readTs;
    while older != {}
      invariant Inv(m.s, m.h) && rid in m.h && m.h[rid] == old(m.h[rid]) && reader in m.s.active && m.s.active[reader] == readTs
      invariant older == set t | t in m.s.active && m.s.active[t] < readTs
      invariant rid in m.s.chains ==> Listed(m.s, early, rid)
      decreases |older|
    {
      var t :| t in older;
      ghost var s0, h0 := m.s, m.h;
      var o := m.FinishAbort(t);
      AbortUncovers(s0, h0, t, m.s, rid, early);
      assert older - {t} == set u | u in m.s.active && m.s.active[u] < readTs;
      older := older - {t};
    }
    assert forall t :: t in m.s.active ==> t !in older;
    LastOneUncovers(m, rid, reader, early);
    visible := m.IsVisibleTo(rid, reader, readTs);
  }

  method LastOneUncovers(m: TransactionManager, rid: Rid, reader: TxnId, ghost early: Ts)
    requires Inv(m.s, m.h) && rid in m.h && m.h[rid].fate.Aborted? && reader in m.s.active && early <= m.s.active[reader]
    requires (rid in m.s.chains ==> Listed(m.s, early, rid)) && forall t :: t in m.s.active ==> m.s.active[reader] <= m.s.active[t]
    modifies m
    ensures Inv(m.s, m.h) && rid in m.h && m.h[rid] == old(m.h[rid]) && m.s.active == old(m.s.active) && rid !in m.s.chains
  {
    var t := m.Begin();
    ghost var s0, h0 := m.s, m.h;
    var o := m.FinishAbort(t);
    AbortUncovers(s0, h0, t, m.s, rid, early);
    assert m.s.active == old(m.s.active);
  }

  // ---- A row id reused too early ----

  /** An abort lists the rows it emptied, and its prune leaves what is not due. */
  lemma {:induction false} AbortLists(s: State, h: History, t: TxnId, s': State, rid: Rid, w: Ts)
    requires Inv(s, h) && t in s.active && AbortsThenPrunes(s, t, s') && rid in WriteSet(s, t)
    requires IsOldest(s.(active := s.active - {t}), w) && w < s.nextTs && forall ts :: Listed(s, ts, rid) ==> w < ts
    ensures s'.active == s.active - {t} && s'.nextTs == s.nextTs && s'.nextTxn == s.nextTxn && rid in s'.chains
    ensures Listed(s', s.nextTs, rid) && forall ts :: Listed(s', ts, rid) <==> Listed(s, ts, rid) || ts == s.nextTs
  {
    var mid :| Aborts(s, t, mid) && PrunesAtOldest(mid, s');
    var v :| IsOldest(mid, v) && Prunes(mid, v, s');
    assert v == w;
    assert RidOk(s, h, rid) && RemovedAt(s.chains, mid.chains, Rids(WriteSet(s, t)), t, rid) && PrunedAt(mid, s', w, rid);
    OwnRows(s, h, t, rid);
    assert RemoveCreator([Entry(t, None, None)], t) == [] by { RemoveLeavesNone([Entry(t, None, None)], t); }
    assert EmptiedBy(s, mid, t, rid);
    if Due(mid, w, rid) {
      var ts :| ts in mid.candidates && ts <= w && rid in mid.candidates[ts];
      assert Listed(mid, ts, rid);
    }
    forall ts ensures Listed(s', ts, rid) <==> Listed(s, ts, rid) || ts == s.nextTs {
      assert Listed(mid, ts, rid) <==> Listed(s, ts, rid) || ts == s.nextTs;
    }
  }

  /** A commit whose prune finds a due candidate list that names an aborted row drops its empty chain. */
  lemma {:induction false} CommitUncovers(s: State, h: History, t: TxnId, s': State, rid: Rid, w: Ts, due: Ts)
    requires Inv(s, h) && t in s.active && CommitsThenPrunes(s, t, s') && rid in h && h[rid].fate.Aborted?
    requires IsOldest(s.(active := s.active - {t}, nextTs := s.nextTs + 1), w) && due <= w && Listed(s, due, rid)
    ensures rid !in s'.chains && s'.active == s.active - {t}
  {
    var mid :| Commits(s, t, mid) && PrunesAtOldest(mid, s');
    var v :| IsOldest(mid, v) && Prunes(mid, v, s');
    assert v == w;
    assert RidOk(s, h, rid) && MarkedAt(s.chains, mid.chains, Rids(WriteSet(s, t)), t, s.nextTs, rid) && PrunedAt(mid, s', w, rid);
    OwnRows(s, h, t, rid);
    CommitKeepsListed(s, t, mid, due, rid);
  }

  lemma {:induction false} CommitKeepsListed(s: State, t: TxnId, s': State, ts: Ts, rid: Rid)
    requires Commits(s, t, s') && Listed(s, ts, rid)
    ensures Listed(s', ts, rid)
  {
  }

  ghost predicate Leftover(s: State, h: History, active: map<TxnId, Ts>, ts: Ts, rid: Rid, lists: set<Ts>)
  {
    && Inv(s, h) && s.active == active && s.nextTs == ts && s.nextTxn == ts && rid in s.chains
    && rid in h && h[rid].fate.Aborted? && forall c :: Listed(s, c, rid) <==> c in lists
  }

  method FirstAbort(m: TransactionManager, rid: Rid)
    requires Inv(m.s, m.h) && m.s == State(map[], map[], map[], map[], 0, 0) && m.h == map[] && m.aborting == {}
    modifies m
    ensures Leftover(m.s, m.h, map[0 := 0], 2, rid, {2}) && m.aborting == {}
  {
    var reader := m.Begin();
    var writer := m.Begin();
    m.RecordInsert(writer, rid);
    ghost var s0, h0 := m.s, m.h;
    assert s0.active - {writer} == map[0 := 0];
    assert IsOldest(s0.(active := s0.active - {writer}), 0) by { assert 0 in s0.active - {writer}; }
    OwnRows(s0, h0, writer, rid);
    var o := m.FinishAbort(writer);
    AbortLists(s0, h0, writer, m.s, rid, 0);
  }

  method InsertAgain(m: TransactionManager, rid: Rid) returns (writer: TxnId, reader: TxnId)
    requires Leftover(m.s, m.h, map[0 := 0], 2, rid, {2}) && m.aborting == {}
    modifies m
    ensures Inv(m.s, m.h) && m.s.active == map[0 := 0, 2 := 2, 3 := 3] && m.s.nextTs == 4 && m.s.nextTxn == 4 && m.aborting == {}
    ensures writer == 2 && reader == 3 && rid in m.h && m.h[rid] == Version(2, Uncommitted) && rid in WriteSet(m.s, 2)
    ensures forall c :: Listed(m.s, c, rid) <==> c in {2}
  {
    writer := m.Begin();
    m.RecordInsert(writer, rid);
    reader := m.Begin();
    OwnRows(m.s, m.h, writer, rid);
    forall c ensures Listed(m.s, c, rid) <==> c in {2} { assert Listed(old(m.s), c, rid) <==> c in {2}; }
  }

  method SecondAbort(m: TransactionManager, rid: Rid) returns (reader: TxnId)
    requires Leftover(m.s, m.h, map[0 := 0], 2, rid, {2}) && m.aborting == {}
    modifies m
    ensures Leftover(m.s, m.h, map[0 := 0, 3 := 3], 4, rid, {2, 4}) && reader == 3 && m.h[rid] == Version(2, Aborted(4)) && m.aborting == {}
  {
    var writer;
    writer, reader := InsertAgain(m, rid);
    ghost var s0, h0 := m.s, m.h;
    ghost var rest := s0.active - {writer};
    assert rest == map[0 := 0, 3 := 3];
    assert IsOldest(s0.(active := rest), 0) by { assert 0 in rest; }
    var o := m.FinishAbort(writer);
    AbortLists(s0, h0, writer, m.s, rid, 0);
    AbortedAt(h0, writer, s0.nextTs, rid);
  }

  lemma {:induction false} AbortedAt(h: History, t: TxnId, ts: Ts, rid: Rid)
    requires rid in h && h[rid] == Version(t, Uncommitted)
    ensures rid in AbortedHistory(h, t, ts) && AbortedHistory(h, t, ts)[rid] == Version(t, Aborted(ts))
  {
  }

  /** A reader that was active when the row's insert was rolled back, and that had started before it,
      is told the row is visible: an earlier aborted insert at the same row id left a candidate list
      that came due first. */
  method StaleCandidate(rid: Rid) returns (visible: bool, reader: TxnId, readTs: Ts, ghost h: History)
    ensures visible && rid in h && h[rid].fate.Aborted? && h[rid].creator != reader && readTs < h[rid].fate.at
  {
    var m := new TransactionManager(None);
    FirstAbort(m, rid);
    reader := SecondAbort(m, rid);
    readTs := m.s.active[reader];
    ghost var s0, h0 := m.s, m.h;
    assert s0.active - {0} == map[3 := 3];
    assert IsOldest(s0.(active := s0.active - {0}, nextTs := s0.nextTs + 1), 3) by { assert 3 in s0.active - {0}; }
    var o := m.Commit(0);
    CommitUncovers(s0, h0, 0, m.s, rid, 3, 2);
    visible := m.IsVisibleTo(rid, reader, readTs);
    h := m.h;
  }
}
