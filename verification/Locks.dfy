/** The lock manager: strict two-phase locking, with a search of the waits-for graph before every wait. */
module Locks {
  type TxnId = nat

  datatype Mode = Shared | Exclusive

  datatype Resource = Row(page: nat, slot: nat) | Table(id: nat)

  datatype State = State(
    holders: map<Resource, seq<(TxnId, Mode)>>,
    heldBy: map<TxnId, set<Resource>>,
    waitingFor: map<TxnId, (Resource, Mode)>,
    finished: set<TxnId>)

  predicate Conflicts(a: Mode, b: Mode)
  {
    !(a.Shared? && b.Shared?)
  }

  function HoldersOf(s: State, r: Resource): seq<(TxnId, Mode)>
  {
    if r in s.holders then s.holders[r] else []
  }

  predicate ConflictsAt(hs: seq<(TxnId, Mode)>, i: int, m: Mode, t: TxnId, u: TxnId)
  {
    0 <= i < |hs| && hs[i].0 == u && u != t && Conflicts(hs[i].1, m)
  }

  /** `u` holds in a mode that keeps `t` from getting `m`. */
  ghost predicate InWay(hs: seq<(TxnId, Mode)>, m: Mode, t: TxnId, u: TxnId)
  {
    exists i :: ConflictsAt(hs, i, m, t, u)
  }

  /** `conflicting_holders`: who stands in the way of `t` getting `m`. */
  function Conflicting(hs: seq<(TxnId, Mode)>, m: Mode, t: TxnId): seq<TxnId>
  {
    if hs == [] then [] else
      var rest := Conflicting(hs[..|hs| - 1], m, t);
      var (u, held) := hs[|hs| - 1];
      if u != t && Conflicts(held, m) then rest + [u] else rest
  }

  lemma {:induction false} ConflictingIs(hs: seq<(TxnId, Mode)>, m: Mode, t: TxnId, u: TxnId)
    ensures u in Conflicting(hs, m, t) <==> InWay(hs, m, t, u)
    decreases |hs|
  {
    if hs != [] {
      var front := hs[..|hs| - 1];
      ConflictingIs(front, m, t, u);
      if InWay(hs, m, t, u) {
        var i :| ConflictsAt(hs, i, m, t, u);
        if i < |front| { assert ConflictsAt(front, i, m, t, u); }
      }
      if InWay(front, m, t, u) {
        var i :| ConflictsAt(front, i, m, t, u);
        assert ConflictsAt(hs, i, m, t, u);
      }
      if u in Conflicting(hs, m, t) && u !in Conflicting(front, m, t) { assert ConflictsAt(hs, |hs| - 1, m, t, u); }
    }
  }

  // ---- The waits-for graph ----

  /** `t` waits for a lock that `u` keeps it from getting. */
  ghost predicate Edge(s: State, t: TxnId, u: TxnId)
  {
    t in s.waitingFor && InWay(HoldersOf(s, s.waitingFor[t].0), s.waitingFor[t].1, t, u)
  }

  ghost predicate Path(s: State, p: seq<TxnId>)
  {
    p != [] && forall i :: 0 <= i < |p| - 1 ==> Edge(s, p[i], p[i + 1])
  }

  ghost predicate Reaches(s: State, a: TxnId, b: TxnId)
  {
    exists p :: PathFrom(s, p, a, b)
  }

  ghost predicate PathFrom(s: State, p: seq<TxnId>, a: TxnId, b: TxnId)
  {
    Path(s, p) && p[0] == a && p[|p| - 1] == b
  }

  /** No transaction waits, directly or through others, for itself. */
  ghost predicate Acyclic(s: State)
  {
    forall t, u :: NoCycle(s, t, u)
  }

  ghost predicate NoCycle(s: State, t: TxnId, u: TxnId)
  {
    Edge(s, t, u) ==> !Reaches(s, u, t)
  }

  /** Waiting for `blockers` would close a cycle through `t`. */
  ghost predicate ClosesCycle(s: State, t: TxnId, blockers: seq<TxnId>)
  {
    exists b :: b in blockers && Reaches(s, b, t)
  }

  lemma {:induction false} Extends(s: State, a: TxnId, b: TxnId, c: TxnId)
    requires Reaches(s, a, b) && Edge(s, b, c)
    ensures Reaches(s, a, c)
  {
    var p :| PathFrom(s, p, a, b);
    var q := p + [c];
    forall i | 0 <= i < |q| - 1 ensures Edge(s, q[i], q[i + 1]) {
      if i < |p| - 1 { assert q[i] == p[i] && q[i + 1] == p[i + 1]; }
    }
    assert PathFrom(s, q, a, c);
  }

  lemma {:induction false} Itself(s: State, a: TxnId)
    ensures Reaches(s, a, a)
  {
    assert PathFrom(s, [a], a, a);
  }

  /** A set closed under the edges out of it cannot be left. */
  ghost predicate ClosedUnder(s: State, seen: set<TxnId>, more: set<TxnId>)
  {
    forall v, w :: v in seen && Edge(s, v, w) ==> w in seen || w in more
  }

  lemma {:induction false} CannotLeave(s: State, seen: set<TxnId>, p: seq<TxnId>)
    requires Path(s, p) && p[0] in seen && ClosedUnder(s, seen, {})
    ensures p[|p| - 1] in seen
    decreases |p|
  {
    if |p| > 1 {
      var q := p[..|p| - 1];
      assert forall i :: 0 <= i < |q| - 1 ==> Edge(s, q[i], q[i + 1]);
      CannotLeave(s, seen, q);
      assert Edge(s, p[|p| - 2], p[|p| - 1]);
    }
  }

  function Members(ids: seq<TxnId>): set<TxnId>
  {
    set u | u in ids
  }

  function AllHolders(s: State): set<TxnId>
  {
    set r, i | r in s.holders && 0 <= i < |s.holders[r]| :: s.holders[r][i].0
  }

  lemma {:induction false} BlockersHold(s: State, r: Resource, m: Mode, t: TxnId)
    ensures Members(Conflicting(HoldersOf(s, r), m, t)) <= AllHolders(s)
  {
    forall u | u in Conflicting(HoldersOf(s, r), m, t) ensures u in AllHolders(s) {
      ConflictingIs(HoldersOf(s, r), m, t, u);
      var i :| ConflictsAt(HoldersOf(s, r), i, m, t, u);
    }
  }

  /** What the search knows: everything met is reachable from a blocker, and nothing met is left unexplored
      but what is on the stack. */
  ghost predicate Searching(s: State, start: TxnId, blockers: seq<TxnId>, stack: set<TxnId>, visited: set<TxnId>)
  {
    && start !in visited && ClosedUnder(s, visited, stack)
    && (forall v :: v in stack + visited ==> Found(s, blockers, v))
    && (forall b :: b in blockers ==> b in stack + visited)
  }

  /** `would_deadlock`: a depth-first search with an explicit stack. It ends, and answers exactly whether
      waiting would close a cycle. */
  method WouldDeadlock(s: State, start: TxnId, blockers: seq<TxnId>) returns (found: bool)
    ensures found <==> ClosesCycle(s, start, blockers)
  {
    var stack, visited := blockers, {};
    ghost var universe := Members(blockers) + AllHolders(s);
    SearchBegins(s, start, blockers);
    while stack != []
      invariant Members(stack) <= universe && visited <= universe
      invariant Searching(s, start, blockers, Members(stack), visited)
      decreases |universe - visited|, |stack|
    {
      var v := stack[|stack| - 1];
      ghost var was := Members(stack);
      Popped(stack);
      stack := stack[..|stack| - 1];
      if v == start {
        assert Found(s, blockers, v);
        return true;
      }
      if v in visited { continue; }
      Smaller(universe, visited, v);
      var next := if v in s.waitingFor then Conflicting(HoldersOf(s, s.waitingFor[v].0), s.waitingFor[v].1, v) else [];
      if v in s.waitingFor { BlockersHold(s, s.waitingFor[v].0, s.waitingFor[v].1, v); }
      SearchStep(s, start, blockers, was, Members(stack), visited, v, next);
      Pushed(stack, next);
      visited, stack := visited + {v}, stack + next;
    }
    SearchEnds(s, start, blockers, visited);
    return false;
  }

  lemma {:induction false} Popped(stack: seq<TxnId>)
    requires stack != []
    ensures Members(stack) == Members(stack[..|stack| - 1]) + {stack[|stack| - 1]}
  {
    assert stack == stack[..|stack| - 1] + [stack[|stack| - 1]];
  }

  lemma {:induction false} Pushed(stack: seq<TxnId>, next: seq<TxnId>)
    ensures Members(stack + next) == Members(stack) + Members(next)
  {
  }

  lemma {:induction false} SearchBegins(s: State, start: TxnId, blockers: seq<TxnId>)
    ensures Searching(s, start, blockers, Members(blockers), {})
  {
    forall b | b in blockers ensures Found(s, blockers, b) { Itself(s, b); }
  }

  lemma {:induction false} SearchStep(s: State, start: TxnId, blockers: seq<TxnId>, was: set<TxnId>, stack: set<TxnId>, visited: set<TxnId>,
                                      v: TxnId, next: seq<TxnId>)
    requires Searching(s, start, blockers, was, visited) && was == stack + {v} && v != start
    requires next == if v in s.waitingFor then Conflicting(HoldersOf(s, s.waitingFor[v].0), s.waitingFor[v].1, v) else []
    ensures Searching(s, start, blockers, stack + Members(next), visited + {v})
  {
    forall w ensures w in next <==> Edge(s, v, w) {
      if v in s.waitingFor { ConflictingIs(HoldersOf(s, s.waitingFor[v].0), s.waitingFor[v].1, v, w); }
    }
    forall w | w in next ensures Found(s, blockers, w) { FoundNext(s, blockers, v, w); }
  }

  lemma {:induction false} SearchEnds(s: State, start: TxnId, blockers: seq<TxnId>, visited: set<TxnId>)
    requires Searching(s, start, blockers, {}, visited)
    ensures !ClosesCycle(s, start, blockers)
  {
    forall b | b in blockers ensures !Reaches(s, b, start) {
      if Reaches(s, b, start) {
        var p :| PathFrom(s, p, b, start);
        CannotLeave(s, visited, p);
      }
    }
  }

  /** Some blocker reaches `v`. */
  ghost predicate Found(s: State, blockers: seq<TxnId>, v: TxnId)
  {
    exists b :: b in blockers && Reaches(s, b, v)
  }

  lemma {:induction false} FoundNext(s: State, blockers: seq<TxnId>, v: TxnId, w: TxnId)
    requires Found(s, blockers, v) && Edge(s, v, w)
    ensures Found(s, blockers, w)
  {
    var b :| b in blockers && Reaches(s, b, v);
    Extends(s, b, v, w);
  }

  lemma {:induction false} Smaller(universe: set<TxnId>, visited: set<TxnId>, v: TxnId)
    requires v in universe && v !in visited
    ensures |universe - (visited + {v})| < |universe - visited|
  {
    assert universe - visited == (universe - (visited + {v})) + {v};
  }

  // ---- What every reachable state keeps ----

  ghost predicate Holds(s: State, t: TxnId, r: Resource)
  {
    exists i :: HoldsAt(HoldersOf(s, r), i, t)
  }

  predicate HoldsAt(hs: seq<(TxnId, Mode)>, i: int, t: TxnId)
  {
    0 <= i < |hs| && hs[i].0 == t
  }

  /** Two entries for one resource are different transactions in compatible modes. */
  predicate PairOk(s: State, r: Resource, i: int, j: int)
  {
    0 <= i < j < |HoldersOf(s, r)| ==>
      HoldersOf(s, r)[i].0 != HoldersOf(s, r)[j].0 && !Conflicts(HoldersOf(s, r)[i].1, HoldersOf(s, r)[j].1)
  }

  /** `held_by` is the inverse of `holders`. */
  ghost predicate HeldIff(s: State, t: TxnId, r: Resource)
  {
    (t in s.heldBy && r in s.heldBy[t]) <==> Holds(s, t, r)
  }

  /** A finished transaction holds nothing and waits for nothing. */
  predicate FinishedOk(s: State, t: TxnId)
  {
    t in s.finished ==> t !in s.heldBy && t !in s.waitingFor
  }

  ghost predicate Inv(s: State)
  {
    && (forall r, i, j :: PairOk(s, r, i, j)) && (forall t, r :: HeldIff(s, t, r))
    && (forall t :: FinishedOk(s, t)) && Acyclic(s)
  }

  // ---- Cycles cannot appear ----

  /** Every edge of `s'` is one of `s` or leads to `t`. */
  ghost predicate EdgeFrom(s: State, s': State, t: TxnId, x: TxnId, u: TxnId)
  {
    Edge(s', x, u) ==> Edge(s, x, u) || u == t
  }

  /** New edges into a transaction that waits for nothing close no cycle. */
  lemma {:induction false} SinkIsSafe(s: State, s': State, t: TxnId)
    requires Acyclic(s) && t !in s'.waitingFor && forall x, u :: EdgeFrom(s, s', t, x, u)
    ensures Acyclic(s')
  {
    forall x, u ensures NoCycle(s', x, u) {
      if Edge(s', x, u) && Reaches(s', u, x) {
        var p :| PathFrom(s', p, u, x);
        assert EdgeFrom(s, s', t, x, u) && u != t by { assert |p| > 1 ==> Edge(s', p[0], p[1]); }
        assert NoCycle(s, x, u);
        SinkPath(s, s', t, p);
        assert PathFrom(s, p, u, x);
      }
    }
  }

  lemma {:induction false} SinkPath(s: State, s': State, t: TxnId, p: seq<TxnId>)
    requires t !in s'.waitingFor && (forall x, u :: EdgeFrom(s, s', t, x, u)) && Path(s', p) && p[|p| - 1] != t
    ensures Path(s, p)
  {
    forall i | 0 <= i < |p| - 1 ensures Edge(s, p[i], p[i + 1]) {
      assert Edge(s', p[i], p[i + 1]) && EdgeFrom(s, s', t, p[i], p[i + 1]);
      if i + 1 < |p| - 1 { assert Edge(s', p[i + 1], p[i + 2]); }
    }
  }

  /** Edges out of transactions other than `t` are those of `s`. */
  ghost predicate OnlyFrom(s: State, s': State, t: TxnId, x: TxnId, u: TxnId)
  {
    x != t ==> (Edge(s', x, u) ==> Edge(s, x, u))
  }

  /** A path that comes back to `t` first goes there along old edges. */
  lemma {:induction false} FirstReturn(s: State, s': State, t: TxnId, p: seq<TxnId>)
    requires (forall x, u :: OnlyFrom(s, s', t, x, u)) && Path(s', p) && p[|p| - 1] == t
    ensures Reaches(s, p[0], t)
    decreases |p|
  {
    if p[0] == t {
      Itself(s, t);
    } else {
      assert Edge(s', p[0], p[1]) && OnlyFrom(s, s', t, p[0], p[1]);
      var rest := p[1..];
      forall i | 0 <= i < |rest| - 1 ensures Edge(s', rest[i], rest[i + 1]) { assert rest[i] == p[i + 1] && rest[i + 1] == p[i + 2]; }
      FirstReturn(s, s', t, rest);
      var q :| PathFrom(s, q, p[1], t);
      var more := [p[0]] + q;
      forall i | 0 <= i < |more| - 1 ensures Edge(s, more[i], more[i + 1]) {
        if i > 0 { assert more[i] == q[i - 1] && more[i + 1] == q[i]; }
      }
      assert PathFrom(s, more, p[0], t);
    }
  }

  /** A wait that the search allowed closes no cycle. */
  lemma {:induction false} WaitIsSafe(s: State, s': State, t: TxnId, blockers: seq<TxnId>)
    requires Acyclic(s) && t !in s.waitingFor && !ClosesCycle(s, t, blockers)
    requires (forall x, u :: OnlyFrom(s, s', t, x, u)) && forall u :: Edge(s', t, u) ==> u in blockers
    ensures Acyclic(s')
  {
    forall x, u ensures NoCycle(s', x, u) {
      if Edge(s', x, u) && Reaches(s', u, x) {
        var p :| PathFrom(s', p, u, x);
        if t in p {
          var i :| 0 <= i < |p| && p[i] == t;
          ThroughT(s, s', t, blockers, p, i);
        } else {
          OldPath(s, s', t, p);
          assert PathFrom(s, p, u, x) && OnlyFrom(s, s', t, x, u) && NoCycle(s, x, u);
        }
      }
    }
  }

  lemma {:induction false} OldPath(s: State, s': State, t: TxnId, p: seq<TxnId>)
    requires (forall x, u :: OnlyFrom(s, s', t, x, u)) && Path(s', p) && t !in p
    ensures Path(s, p)
  {
    forall i | 0 <= i < |p| - 1 ensures Edge(s, p[i], p[i + 1]) {
      assert Edge(s', p[i], p[i + 1]) && OnlyFrom(s, s', t, p[i], p[i + 1]);
    }
  }

  /** A cycle through `t`, started at the blocker after `t`. */
  lemma {:induction false} ThroughT(s: State, s': State, t: TxnId, blockers: seq<TxnId>, p: seq<TxnId>, i: nat)
    requires (forall x, u :: OnlyFrom(s, s', t, x, u)) && (forall u :: Edge(s', t, u) ==> u in blockers)
    requires Path(s', p) && Edge(s', p[|p| - 1], p[0]) && i < |p| && p[i] == t
    ensures ClosesCycle(s, t, blockers)
  {
    var round := p[i + 1..] + p[..i + 1];
    forall k | 0 <= k < |round| - 1 ensures Edge(s', round[k], round[k + 1]) {
      if k < |p| - i - 2 {
        assert round[k] == p[i + 1 + k] && round[k + 1] == p[i + 2 + k];
      } else if k == |p| - i - 2 {
        assert round[k] == p[|p| - 1] && round[k + 1] == p[0];
      } else {
        assert round[k] == p[k - (|p| - i - 1)] && round[k + 1] == p[k - (|p| - i - 1) + 1];
      }
    }
    assert round[|round| - 1] == t;
    FirstReturn(s, s', t, round);
    assert Edge(s', t, round[0]) by {
      if i + 1 < |p| { assert round[0] == p[i + 1] && Edge(s', p[i], p[i + 1]); } else { assert round[0] == p[0]; }
    }
  }

  // ---- Steps ----

  lemma {:induction false} StopWaiting(s: State, t: TxnId)
    requires Inv(s)
    ensures Inv(s.(waitingFor := s.waitingFor - {t}))
  {
    var s' := s.(waitingFor := s.waitingFor - {t});
    forall r, i, j ensures PairOk(s', r, i, j) { assert PairOk(s, r, i, j); }
    forall u, r ensures HeldIff(s', u, r) {
      assert HeldIff(s, u, r);
      assert HoldersOf(s', r) == HoldersOf(s, r);
    }
    forall u ensures FinishedOk(s', u) { assert FinishedOk(s, u); }
    SinkIsSafe(s, s', t);
  }

  /** The holders without `t`. */
  function Without(hs: seq<(TxnId, Mode)>, t: TxnId): (r: seq<(TxnId, Mode)>)
    ensures |r| <= |hs|
  {
    if hs == [] then [] else
      var rest := Without(hs[..|hs| - 1], t);
      if hs[|hs| - 1].0 == t then rest else rest + [hs[|hs| - 1]]
  }

  /** The entries that stay are the ones that are not `t`'s, in the same order. */
  lemma {:induction false} WithoutAt(hs: seq<(TxnId, Mode)>, t: TxnId, j: int) returns (i: int)
    requires 0 <= j < |Without(hs, t)|
    ensures j <= i < |hs| && Without(hs, t)[j] == hs[i] && hs[i].0 != t
    decreases |hs|
  {
    var front := hs[..|hs| - 1];
    if j < |Without(front, t)| {
      i := WithoutAt(front, t, j);
    } else {
      i := |hs| - 1;
    }
  }

  lemma {:induction false} WithoutOrdered(hs: seq<(TxnId, Mode)>, t: TxnId, j: int, k: int) returns (a: int, b: int)
    requires 0 <= j < k < |Without(hs, t)|
    ensures 0 <= a < b < |hs| && Without(hs, t)[j] == hs[a] && Without(hs, t)[k] == hs[b]
    decreases |hs|
  {
    var front := hs[..|hs| - 1];
    if k < |Without(front, t)| {
      a, b := WithoutOrdered(front, t, j, k);
    } else {
      a := WithoutAt(front, t, j);
      b := |hs| - 1;
    }
  }

  lemma {:induction false} WithoutKeeps(hs: seq<(TxnId, Mode)>, t: TxnId, i: int)
    requires 0 <= i < |hs| && hs[i].0 != t
    ensures hs[i] in Without(hs, t)
    decreases |hs|
  {
    if i < |hs| - 1 { WithoutKeeps(hs[..|hs| - 1], t, i); }
  }

  /** The state after `t` is granted `m` on `r`. */
  function Granted(s: State, t: TxnId, r: Resource, m: Mode): State
  {
    s.(holders := s.holders[r := Without(HoldersOf(s, r), t) + [(t, m)]],
       heldBy := s.heldBy[t := (if t in s.heldBy then s.heldBy[t] else {}) + {r}])
  }

  lemma {:induction false} GrantedHolders(s: State, t: TxnId, r: Resource, m: Mode, u: TxnId)
    ensures Holds(Granted(s, t, r, m), u, r) <==> u == t || Holds(s, u, r)
  {
    var hs, hs' := HoldersOf(s, r), HoldersOf(Granted(s, t, r, m), r);
    if u == t { assert HoldsAt(hs', |hs'| - 1, t); }
    if Holds(s, u, r) && u != t {
      var i :| HoldsAt(hs, i, u);
      WithoutKeeps(hs, t, i);
      var j :| 0 <= j < |Without(hs, t)| && Without(hs, t)[j] == hs[i];
      assert HoldsAt(hs', j, u);
    }
    if Holds(Granted(s, t, r, m), u, r) && u != t {
      var j :| HoldsAt(hs', j, u);
      var i := WithoutAt(hs, t, j);
      assert HoldsAt(hs, i, u);
    }
  }

  lemma {:induction false} GrantPairs(s: State, t: TxnId, r: Resource, m: Mode, i: int, j: int)
    requires (forall q, a, b :: PairOk(s, q, a, b)) && Conflicting(HoldersOf(s, r), m, t) == []
    ensures PairOk(Granted(s, t, r, m), r, i, j)
  {
    var hs, kept := HoldersOf(s, r), Without(HoldersOf(s, r), t);
    if 0 <= i < j < |kept| {
      var a, b := WithoutOrdered(hs, t, i, j);
      assert PairOk(s, r, a, b);
    } else if 0 <= i < j == |kept| {
      var a := WithoutAt(hs, t, i);
      ConflictingIs(hs, m, t, hs[a].0);
      assert !ConflictsAt(hs, a, m, t, hs[a].0);
    }
  }

  /** Granting adds only edges into the grantee. */
  lemma {:induction false} GrantEdges(s: State, t: TxnId, r: Resource, m: Mode, x: TxnId, u: TxnId)
    ensures EdgeFrom(s, Granted(s, t, r, m), t, x, u)
  {
    var s' := Granted(s, t, r, m);
    if Edge(s', x, u) && u != t {
      var q, want := s.waitingFor[x].0, s.waitingFor[x].1;
      if q == r {
        var j :| ConflictsAt(HoldersOf(s', q), j, want, x, u);
        var i := WithoutAt(HoldersOf(s, q), t, j);
        assert ConflictsAt(HoldersOf(s, q), i, want, x, u);
      }
    }
  }

  lemma {:induction false} GrantKeeps(s: State, t: TxnId, r: Resource, m: Mode)
    requires Inv(s) && t !in s.waitingFor && t !in s.finished && Conflicting(HoldersOf(s, r), m, t) == []
    ensures Inv(Granted(s, t, r, m))
  {
    var s' := Granted(s, t, r, m);
    forall q, i, j ensures PairOk(s', q, i, j) {
      if q == r { GrantPairs(s, t, r, m, i, j); } else { assert PairOk(s, q, i, j); }
    }
    forall u, q ensures HeldIff(s', u, q) {
      assert HeldIff(s, u, q);
      if q == r { GrantedHolders(s, t, r, m, u); } else { assert HoldersOf(s', q) == HoldersOf(s, q); }
    }
    forall u ensures FinishedOk(s', u) { assert FinishedOk(s, u); }
    forall x, u ensures EdgeFrom(s, s', t, x, u) { GrantEdges(s, t, r, m, x, u); }
    SinkIsSafe(s, s', t);
  }

  lemma {:induction false} WaitKeeps(s: State, t: TxnId, r: Resource, m: Mode)
    requires Inv(s) && t !in s.waitingFor && t !in s.finished && !ClosesCycle(s, t, Conflicting(HoldersOf(s, r), m, t))
    ensures Inv(s.(waitingFor := s.waitingFor[t := (r, m)]))
  {
    var s' := s.(waitingFor := s.waitingFor[t := (r, m)]);
    forall q, i, j ensures PairOk(s', q, i, j) { assert PairOk(s, q, i, j); }
    forall u, q ensures HeldIff(s', u, q) {
      assert HeldIff(s, u, q);
      assert HoldersOf(s', q) == HoldersOf(s, q);
    }
    forall u ensures FinishedOk(s', u) { assert FinishedOk(s, u); }
    forall u | Edge(s', t, u) ensures u in Conflicting(HoldersOf(s, r), m, t) { ConflictingIs(HoldersOf(s, r), m, t, u); }
    WaitIsSafe(s, s', t, Conflicting(HoldersOf(s, r), m, t));
  }

  // ---- Releasing ----

  lemma {:induction false} WithoutNone(hs: seq<(TxnId, Mode)>, t: TxnId)
    requires forall i :: !HoldsAt(hs, i, t)
    ensures Without(hs, t) == hs
    decreases |hs|
  {
    if hs != [] {
      var front := hs[..|hs| - 1];
      forall i ensures !HoldsAt(front, i, t) { assert !HoldsAt(hs, i, t); }
      WithoutNone(front, t);
      assert !HoldsAt(hs, |hs| - 1, t);
    }
  }

  predicate DropsT(s: State, s': State, t: TxnId, r: Resource)
  {
    HoldersOf(s', r) == Without(HoldersOf(s, r), t)
  }

  lemma {:induction false} ReleasedHolds(s: State, s': State, t: TxnId, u: TxnId, r: Resource)
    requires DropsT(s, s', t, r)
    ensures Holds(s', u, r) <==> u != t && Holds(s, u, r)
  {
    var hs, hs' := HoldersOf(s, r), HoldersOf(s', r);
    if Holds(s', u, r) {
      var j :| HoldsAt(hs', j, u);
      var i := WithoutAt(hs, t, j);
      assert HoldsAt(hs, i, u);
    }
    if u != t && Holds(s, u, r) {
      var i :| HoldsAt(hs, i, u);
      WithoutKeeps(hs, t, i);
      var j :| 0 <= j < |hs'| && hs'[j] == hs[i];
      assert HoldsAt(hs', j, u);
    }
  }

  lemma {:induction false} ReleasedEdge(s: State, s': State, t: TxnId, x: TxnId, u: TxnId)
    requires (forall r :: DropsT(s, s', t, r)) && s'.waitingFor == s.waitingFor - {t}
    ensures EdgeFrom(s, s', t, x, u)
  {
    if Edge(s', x, u) {
      var q, want := s.waitingFor[x].0, s.waitingFor[x].1;
      assert DropsT(s, s', t, q);
      var j :| ConflictsAt(HoldersOf(s', q), j, want, x, u);
      var i := WithoutAt(HoldersOf(s, q), t, j);
      assert ConflictsAt(HoldersOf(s, q), i, want, x, u);
    }
  }

  lemma {:induction false} ReleaseKeeps(s: State, s': State, t: TxnId)
    requires Inv(s) && forall r :: DropsT(s, s', t, r)
    requires s'.heldBy == s.heldBy - {t} && s'.waitingFor == s.waitingFor - {t} && s'.finished == s.finished + {t}
    ensures Inv(s')
  {
    forall r, i, j ensures PairOk(s', r, i, j) {
      assert DropsT(s, s', t, r);
      if 0 <= i < j < |HoldersOf(s', r)| {
        var a, b := WithoutOrdered(HoldersOf(s, r), t, i, j);
        assert PairOk(s, r, a, b);
      }
    }
    forall u, r ensures HeldIff(s', u, r) {
      assert HeldIff(s, u, r) && DropsT(s, s', t, r);
      ReleasedHolds(s, s', t, u, r);
    }
    forall u ensures FinishedOk(s', u) { assert FinishedOk(s, u); }
    forall x, u ensures EdgeFrom(s, s', t, x, u) { ReleasedEdge(s, s', t, x, u); }
    SinkIsSafe(s, s', t);
  }

  /** Only resources in `done` have lost `t` so far. */
  predicate PartlyDropped(before: map<Resource, seq<(TxnId, Mode)>>, after: map<Resource, seq<(TxnId, Mode)>>, t: TxnId, done: set<Resource>, r: Resource)
  {
    (if r in after then after[r] else []) ==
      (var hs := if r in before then before[r] else []; if r in done then Without(hs, t) else hs)
  }

  // ---- The lock manager ----

  datatype Outcome = Ok | Waiting | DeadlockVictim | LockAfterUnlock

  /** What one attempt does: granted at once, refused because waiting would close a cycle, or made to wait. */
  ghost predicate Acquires(s: State, t: TxnId, r: Resource, m: Mode, o: Outcome, s': State)
  {
    var w := s.(waitingFor := s.waitingFor - {t});
    var blockers := Conflicting(HoldersOf(w, r), m, t);
    if HoldsEnough(w, t, r, m) then o == Ok && s' == w
    else if blockers == [] then o == Ok && s' == Granted(w, t, r, m)
    else if ClosesCycle(w, t, blockers) then o == DeadlockVictim && s' == w
    else o == Waiting && s' == w.(waitingFor := w.waitingFor[t := (r, m)])
  }

  class LockManager {
    var s: State

    constructor ()
      ensures Inv(s) && s == State(map[], map[], map[], {})
    {
      s := State(map[], map[], map[], {});
      new;
      forall x, u ensures NoCycle(s, x, u) { }
    }

    /** `lock` and `lock_table`: a finished transaction may not lock again. */
    method Lock(t: TxnId, r: Resource, m: Mode) returns (o: Outcome)
      requires Inv(s)
      modifies this
      ensures Inv(s)
      ensures if t in old(s.finished) then o == LockAfterUnlock && s == old(s) else Acquires(old(s), t, r, m, o, s)
    {
      if t in s.finished { return LockAfterUnlock; }
      o := TryAcquire(t, r, m);
    }

    /** Woken up while waiting: the loop of `acquire` goes round once more. */
    method Retry(t: TxnId) returns (o: Outcome)
      requires Inv(s) && t in s.waitingFor
      modifies this
      ensures Inv(s) && Acquires(old(s), t, old(s.waitingFor)[t].0, old(s.waitingFor)[t].1, o, s)
    {
      assert FinishedOk(s, t);
      o := TryAcquire(t, s.waitingFor[t].0, s.waitingFor[t].1);
    }

    /** One turn of the loop of `acquire`. */
    method TryAcquire(t: TxnId, r: Resource, m: Mode) returns (o: Outcome)
      requires Inv(s) && t !in s.finished
      modifies this
      ensures Inv(s) && Acquires(old(s), t, r, m, o, s)
    {
      StopWaiting(s, t);
      s := s.(waitingFor := s.waitingFor - {t});
      var hs := HoldersOf(s, r);
      var i := FindHolder(hs, t);
      if 0 <= i && (hs[i].1 == Exclusive || hs[i].1 == m) {
        assert EnoughAt(hs, i, t, m);
        return Ok;
      }
      NotEnough(s, r, t, m, i);
      var blockers := Conflicting(hs, m, t);
      if blockers == [] {
        GrantKeeps(s, t, r, m);
        s := Granted(s, t, r, m);
        return Ok;
      }
      var deadlock := WouldDeadlock(s, t, blockers);
      if deadlock { return DeadlockVictim; }
      WaitKeeps(s, t, r, m);
      s := s.(waitingFor := s.waitingFor[t := (r, m)]);
      return Waiting;
    }

    /** A wait that ran out of time. */
    method Timeout(t: TxnId)
      requires Inv(s)
      modifies this
      ensures Inv(s) && s == old(s).(waitingFor := old(s.waitingFor) - {t})
    {
      StopWaiting(s, t);
      s := s.(waitingFor := s.waitingFor - {t});
    }

    /** `release_all`: every lock of `t` and nobody else's goes; `t` is finished. */
    method ReleaseAll(t: TxnId)
      requires Inv(s)
      modifies this
      ensures Inv(s) && (forall r :: DropsT(old(s), s, t, r))
      ensures s.heldBy == old(s.heldBy) - {t} && s.waitingFor == old(s.waitingFor) - {t} && s.finished == old(s.finished) + {t}
    {
      var mine := if t in s.heldBy then s.heldBy[t] else {};
      var holders, left := s.holders, mine;
      while left != {}
        invariant left <= mine && forall r :: PartlyDropped(s.holders, holders, t, mine - left, r)
        decreases |left|
      {
        var r :| r in left;
        ghost var was := holders;
        if r in holders {
          var kept := Without(holders[r], t);
          holders := if kept == [] then holders - {r} else holders[r := kept];
        }
        forall q ensures PartlyDropped(s.holders, holders, t, mine - (left - {r}), q) { assert PartlyDropped(s.holders, was, t, mine - left, q); }
        left := left - {r};
      }
      ghost var s0 := s;
      s := State(holders, s.heldBy - {t}, s.waitingFor - {t}, s.finished + {t});
      forall r ensures DropsT(s0, s, t, r) {
        assert PartlyDropped(s0.holders, holders, t, mine - left, r) && HeldIff(s0, t, r);
        if r !in mine { WithoutNone(HoldersOf(s0, r), t); }
      }
      ReleaseKeeps(s0, s, t);
    }

    /** `prune_finished`. */
    method PruneFinished(watermark: TxnId)
      requires Inv(s)
      modifies this
      ensures Inv(s) && s == old(s).(finished := set t | t in old(s.finished) && watermark <= t)
    {
      ghost var s0 := s;
      s := s.(finished := set t | t in s.finished && watermark <= t);
      forall r, i, j ensures PairOk(s, r, i, j) { assert PairOk(s0, r, i, j); }
      forall u, r ensures HeldIff(s, u, r) {
        assert HeldIff(s0, u, r);
        assert HoldersOf(s, r) == HoldersOf(s0, r);
      }
      forall u ensures FinishedOk(s, u) { assert FinishedOk(s0, u); }
      SameEdges(s0, s);
    }
  }

  lemma {:induction false} SameEdges(s: State, s': State)
    requires Acyclic(s) && s'.holders == s.holders && s'.waitingFor == s.waitingFor
    ensures Acyclic(s')
  {
    forall x, u ensures NoCycle(s', x, u) {
      assert NoCycle(s, x, u);
      if Edge(s', x, u) && Reaches(s', u, x) {
        var p :| PathFrom(s', p, u, x);
        forall i | 0 <= i < |p| - 1 ensures Edge(s, p[i], p[i + 1]) { assert Edge(s', p[i], p[i + 1]); }
        assert PathFrom(s, p, u, x);
      }
    }
  }

  /** `t` holds `r` in mode `m` or a stronger one. */
  ghost predicate HoldsEnough(s: State, t: TxnId, r: Resource, m: Mode)
  {
    exists i :: EnoughAt(HoldersOf(s, r), i, t, m)
  }

  predicate EnoughAt(hs: seq<(TxnId, Mode)>, i: int, t: TxnId, m: Mode)
  {
    0 <= i < |hs| && hs[i].0 == t && (hs[i].1 == Exclusive || hs[i].1 == m)
  }

  /** A transaction has one entry, so if the one found is not enough, none is. */
  lemma {:induction false} NotEnough(s: State, r: Resource, t: TxnId, m: Mode, i: int)
    requires Inv(s) && -1 <= i < |HoldersOf(s, r)| && !EnoughAt(HoldersOf(s, r), i, t, m)
    requires if i == -1 then forall j :: 0 <= j < |HoldersOf(s, r)| ==> HoldersOf(s, r)[j].0 != t else HoldersOf(s, r)[i].0 == t
    ensures !HoldsEnough(s, t, r, m)
  {
    forall j ensures !EnoughAt(HoldersOf(s, r), j, t, m) { assert PairOk(s, r, i, j) && PairOk(s, r, j, i); }
  }

  /** A granted lock is held in the mode asked for, and nobody else's entry for any resource has changed. */
  lemma {:induction false} GrantedIsHeld(s: State, t: TxnId, r: Resource, m: Mode, q: Resource)
    ensures HoldsEnough(Granted(s, t, r, m), t, r, m)
    ensures Without(HoldersOf(Granted(s, t, r, m), q), t) == Without(HoldersOf(s, q), t)
  {
    var hs, kept := HoldersOf(Granted(s, t, r, m), r), Without(HoldersOf(s, r), t);
    assert EnoughAt(hs, |hs| - 1, t, m);
    if q == r {
      WithoutTwice(HoldersOf(s, r), t);
      assert hs[..|hs| - 1] == kept;
    }
  }

  lemma {:induction false} WithoutTwice(hs: seq<(TxnId, Mode)>, t: TxnId)
    ensures Without(Without(hs, t), t) == Without(hs, t)
  {
    var kept := Without(hs, t);
    forall i ensures !HoldsAt(kept, i, t) {
      if 0 <= i < |kept| { var k := WithoutAt(hs, t, i); }
    }
    WithoutNone(kept, t);
  }

  /** The entry of `t`, -1 if there is none. */
  method FindHolder(hs: seq<(TxnId, Mode)>, t: TxnId) returns (i: int)
    ensures -1 <= i < |hs| && (0 <= i ==> hs[i].0 == t)
    ensures i == -1 ==> forall j :: 0 <= j < |hs| ==> hs[j].0 != t
  {
    for k := 0 to |hs|
      invariant forall j :: 0 <= j < k ==> hs[j].0 != t
    {
      if hs[k].0 == t { return k; }
    }
    return -1;
  }

  /** The mutual exclusion two-phase locking rests on: while one transaction holds a resource exclusively,
      no other holds it at all. */
  lemma {:induction false} ExclusiveIsAlone(s: State, r: Resource, t: TxnId, u: TxnId, i: int)
    requires Inv(s) && 0 <= i < |HoldersOf(s, r)| && HoldersOf(s, r)[i] == (t, Exclusive) && Holds(s, u, r)
    ensures u == t
  {
    var j :| HoldsAt(HoldersOf(s, r), j, u);
    assert PairOk(s, r, i, j) && PairOk(s, r, j, i);
  }
}
