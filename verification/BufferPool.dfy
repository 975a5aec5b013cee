/** The buffer pool, one critical section at a time: any interleaving of fetches, new pages, evictions,
    flushes, writes and unpins reads and keeps the last bytes written to every page. */
module BufferPooling {
  import opened Bytes
  import opened Options

  type Image = seq<byte>

  datatype PageId = Page(id: nat)
  datatype ThreadId = Thread(id: nat)

  // ---- Frames, the index, and what the threads are in the middle of ----

  /** What the replacer knows of a frame; an evicted frame is forgotten. */
  datatype Tracking = Untracked | Tracked(evictable: bool)

  /** `frames`, `frame_page`, `owned` and the replacer's entry, frame by frame. */
  datatype Frame = Frame(image: Image, pins: nat, dirty: bool, page: Option<PageId>, owned: bool, tracking: Tracking)

  datatype Goal = Load | Create

  /** Where a thread is inside `fetch_frame` or `new_page`. */
  datatype Task =
    | Claimed(page: PageId, goal: Goal)
    | Evicting(page: PageId, goal: Goal, frame: nat, victim: PageId)
    | HasFrame(page: PageId, goal: Goal, frame: nat)
    | Loaded(page: PageId, goal: Goal, frame: nat, image: Image)
    | Installed(page: PageId, goal: Goal)

  datatype Pool = Pool(
    frames: seq<Frame>,
    table: map<PageId, nat>,
    free: seq<nat>,
    loading: set<PageId>,
    evicting: set<PageId>,
    disk: map<PageId, Image>,
    tasks: map<ThreadId, Task>)

  /** A pin held on a frame for a page. */
  datatype Guard = Guard(frame: nat, page: PageId)

  /** The page map the pool must agree with: the last bytes written to every page. */
  type Contents = map<PageId, Image>

  // ---- The invariant ----

  /** The frame a thread owns. */
  function FrameOf(k: Task): Option<nat>
  {
    if k.Evicting? || k.HasFrame? || k.Loaded? then Some(k.frame) else None
  }

  ghost predicate HeldBySome(s: Pool, f: nat)
  {
    exists t :: t in s.tasks && FrameOf(s.tasks[t]) == Some(f)
  }

  /** Every frame is free, owned by one thread, or mapped; no pinned frame is owned or evictable. */
  ghost predicate FrameOk(s: Pool, f: nat)
  {
    f < |s.frames| ==>
      var x := s.frames[f];
      && (x.page.Some? ==> x.page.value in s.table && s.table[x.page.value] == f)
      && (f in s.free <==> x.page.None? && !x.owned)
      && (x.tracking.Tracked? ==> x.page.Some? && !x.owned && (x.tracking.evictable ==> x.pins == 0))
      && (x.owned ==> x.pins == 0 && HeldBySome(s, f))
      && (x.pins > 0 ==> x.page.Some? && x.tracking.Tracked?)
  }

  /** A mapped page is in one frame, which holds its last bytes; if the frame is clean or there is none, the disk does. */
  predicate PageOk(s: Pool, c: Contents, p: PageId)
  {
    && (p in s.table ==>
          && s.table[p] < |s.frames| && s.frames[s.table[p]].page == Some(p) && p in c && p in s.disk
          && s.frames[s.table[p]].image == c[p] && (!s.frames[s.table[p]].dirty ==> s.disk[p] == c[p]))
    && (p in c && p !in s.table ==> p in s.disk && s.disk[p] == c[p])
  }

  predicate PageClaimed(s: Pool, c: Contents, k: Task)
  {
    if k.Installed? then k.goal == Load && k.page in s.loading
    else if k.goal == Load then k.page in s.loading && k.page !in s.table && (k.page in c || k.page !in s.disk)
    else k.page in s.disk && k.page !in c && k.page !in s.table && k.page !in s.loading
  }

  predicate FrameClaimed(s: Pool, k: Task)
  {
    FrameOf(k).Some? ==>
      && k.frame < |s.frames| && s.frames[k.frame].owned
      && (if k.Evicting? then s.frames[k.frame].page == Some(k.victim) && k.victim in s.evicting
          else s.frames[k.frame].page.None?)
  }

  predicate TaskOk(s: Pool, c: Contents, t: ThreadId)
  {
    t in s.tasks ==>
      PageClaimed(s, c, s.tasks[t]) && FrameClaimed(s, s.tasks[t])
      && (s.tasks[t].Loaded? && s.tasks[t].goal == Load ==> s.tasks[t].page in c && s.tasks[t].image == c[s.tasks[t].page])
  }

  /** Two threads never work on the same page or the same frame. */
  predicate Apart(s: Pool, t: ThreadId, u: ThreadId)
  {
    t in s.tasks && u in s.tasks && t != u ==>
      s.tasks[t].page != s.tasks[u].page && (FrameOf(s.tasks[t]).None? || FrameOf(s.tasks[t]) != FrameOf(s.tasks[u]))
  }

  predicate Loads(k: Task, p: PageId)
  {
    k.goal == Load && k.page == p
  }

  predicate Evicts(k: Task, p: PageId)
  {
    k.Evicting? && k.victim == p
  }

  ghost predicate LoadingOk(s: Pool, p: PageId)
  {
    p in s.loading ==> exists t :: t in s.tasks && Loads(s.tasks[t], p)
  }

  ghost predicate EvictingOk(s: Pool, p: PageId)
  {
    p in s.evicting ==> exists t :: t in s.tasks && Evicts(s.tasks[t], p)
  }

  predicate GuardOk(s: Pool, guards: multiset<Guard>, g: Guard)
  {
    g in guards ==> g.page in s.table && s.table[g.page] == g.frame
  }

  predicate PinsOk(s: Pool, guards: multiset<Guard>, f: nat)
  {
    f < |s.frames| ==> s.frames[f].pins == if s.frames[f].page.Some? then guards[Guard(f, s.frames[f].page.value)] else 0
  }

  predicate FreeDistinct(free: seq<nat>)
  {
    forall i, j :: 0 <= i < j < |free| ==> free[i] != free[j]
  }

  ghost predicate Inv(s: Pool, c: Contents, guards: multiset<Guard>)
  {
    && (forall f :: FrameOk(s, f)) && (forall p :: PageOk(s, c, p)) && (forall t :: TaskOk(s, c, t))
    && (forall t, u :: Apart(s, t, u)) && (forall p :: LoadingOk(s, p)) && (forall p :: EvictingOk(s, p))
    && (forall g :: GuardOk(s, guards, g)) && (forall f :: PinsOk(s, guards, f))
    && FreeDistinct(s.free) && forall i :: 0 <= i < |s.free| ==> s.free[i] < |s.frames|
  }

  // ---- What the invariant says ----

  /** A pinned page reads as its last bytes, whatever else goes on. */
  lemma {:induction false} GuardReadsLastBytes(s: Pool, c: Contents, guards: multiset<Guard>, g: Guard)
    requires Inv(s, c, guards) && g in guards
    ensures g.frame < |s.frames| && g.page in c && s.frames[g.frame].image == c[g.page]
    ensures s.frames[g.frame].pins > 0 && !s.frames[g.frame].owned && g.frame !in s.free
  {
    assert GuardOk(s, guards, g) && PageOk(s, c, g.page) && PinsOk(s, guards, g.frame) && FrameOk(s, g.frame);
  }

  /** At most one frame per page. */
  lemma {:induction false} OneFramePerPage(s: Pool, c: Contents, guards: multiset<Guard>, f: nat, g: nat)
    requires Inv(s, c, guards) && f < |s.frames| && g < |s.frames| && s.frames[f].page.Some? && s.frames[f].page == s.frames[g].page
    ensures f == g
  {
    assert FrameOk(s, f) && FrameOk(s, g);
  }

  /** With no thread inside the pool, every frame is free or mapped, and nothing is left marked. */
  lemma {:induction false} Quiescent(s: Pool, c: Contents, guards: multiset<Guard>)
    requires Inv(s, c, guards) && s.tasks == map[]
    ensures s.loading == {} && s.evicting == {}
    ensures forall f :: 0 <= f < |s.frames| ==> !s.frames[f].owned && (f in s.free <==> s.frames[f].page.None?)
  {
    forall p ensures p !in s.loading && p !in s.evicting { assert LoadingOk(s, p) && EvictingOk(s, p); }
    forall f | 0 <= f < |s.frames| ensures !s.frames[f].owned && (f in s.free <==> s.frames[f].page.None?) { assert FrameOk(s, f); }
  }

  /** A thread owns a mapped frame only while it evicts its page. */
  lemma {:induction false} MappedIsNotOwned(s: Pool, c: Contents, guards: multiset<Guard>, p: PageId)
    requires Inv(s, c, guards) && p in s.table && p !in s.evicting
    ensures s.table[p] < |s.frames| && !s.frames[s.table[p]].owned
  {
    var f := s.table[p];
    assert PageOk(s, c, p) && FrameOk(s, f);
    forall t | t in s.tasks ensures FrameOf(s.tasks[t]) != Some(f) { assert TaskOk(s, c, t); }
  }

  // ---- Pins ----

  function Pin(x: Frame): Frame
  {
    x.(pins := x.pins + 1, tracking := Tracked(false))
  }

  function SetFrame(s: Pool, f: nat, x: Frame): (r: Pool)
    requires f < |s.frames|
  {
    s.(frames := s.frames[f := x])
  }

  /** `pin_locked` on a mapped frame that no thread owns. */
  lemma {:induction false} PinKeeps(s: Pool, c: Contents, guards: multiset<Guard>, p: PageId, s': Pool, guards': multiset<Guard>)
    requires Inv(s, c, guards) && p in s.table && p !in s.evicting
    requires s.table[p] < |s.frames| && s' == SetFrame(s, s.table[p], Pin(s.frames[s.table[p]])) && guards' == guards + multiset{Guard(s.table[p], p)}
    ensures Inv(s', c, guards')
  {
    var f := s.table[p];
    assert PageOk(s, c, p) && FrameOk(s, f);
    MappedIsNotOwned(s, c, guards, p);
    forall g ensures FrameOk(s', g) {
      assert FrameOk(s, g);
      assert HeldBySome(s, g) ==> HeldBySome(s', g);
    }
    forall q ensures PageOk(s', c, q) { assert PageOk(s, c, q); }
    forall t ensures TaskOk(s', c, t) { assert TaskOk(s, c, t); }
    forall t, u ensures Apart(s', t, u) { assert Apart(s, t, u); }
    forall q ensures LoadingOk(s', q) { assert LoadingOk(s, q); }
    forall q ensures EvictingOk(s', q) { assert EvictingOk(s, q); }
    forall g ensures GuardOk(s', guards', g) { assert GuardOk(s, guards, g); }
    forall g ensures PinsOk(s', guards', g) { assert PinsOk(s, guards, g); }
  }

  /** `unpin_frame`, first half: the count goes down outside the index lock. */
  lemma {:induction false} DropPinKeeps(s: Pool, c: Contents, guards: multiset<Guard>, g: Guard, s': Pool)
    requires Inv(s, c, guards) && g in guards && g.frame < |s.frames| && s.frames[g.frame].pins > 0
    requires s' == SetFrame(s, g.frame, s.frames[g.frame].(pins := s.frames[g.frame].pins - 1))
    ensures Inv(s', c, guards - multiset{g})
  {
    var guards' := guards - multiset{g};
    assert GuardOk(s, guards, g) && PageOk(s, c, g.page);
    forall f ensures FrameOk(s', f) {
      assert FrameOk(s, f);
      assert HeldBySome(s, f) ==> HeldBySome(s', f);
    }
    forall p ensures PageOk(s', c, p) { assert PageOk(s, c, p); }
    forall u ensures TaskOk(s', c, u) { assert TaskOk(s, c, u); }
    forall u, v ensures Apart(s', u, v) { assert Apart(s, u, v); }
    forall p ensures LoadingOk(s', p) { assert LoadingOk(s, p); }
    forall p ensures EvictingOk(s', p) { assert EvictingOk(s, p); }
    forall g ensures GuardOk(s', guards', g) { assert GuardOk(s, guards, g); }
    forall f ensures PinsOk(s', guards', f) { assert PinsOk(s, guards, f); }
  }

  /** Second half, under the index lock: the frame may be evicted if nobody pinned or took it in between. */
  lemma {:induction false} SettlePinKeeps(s: Pool, c: Contents, guards: multiset<Guard>, f: nat, s': Pool)
    requires Inv(s, c, guards) && f < |s.frames| && s.frames[f].pins == 0 && !s.frames[f].owned
    requires s' == SetFrame(s, f, s.frames[f].(tracking := if s.frames[f].tracking.Tracked? then Tracked(true) else Untracked))
    ensures Inv(s', c, guards)
  {
    forall g ensures FrameOk(s', g) {
      assert FrameOk(s, g);
      assert HeldBySome(s, g) ==> HeldBySome(s', g);
    }
    forall p ensures PageOk(s', c, p) { assert PageOk(s, c, p); }
    forall u ensures TaskOk(s', c, u) { assert TaskOk(s, c, u); }
    forall u, v ensures Apart(s', u, v) { assert Apart(s, u, v); }
    forall p ensures LoadingOk(s', p) { assert LoadingOk(s, p); }
    forall p ensures EvictingOk(s', p) { assert EvictingOk(s, p); }
    forall g ensures GuardOk(s', guards, g) { assert GuardOk(s, guards, g); }
    forall f ensures PinsOk(s', guards, f) { assert PinsOk(s, guards, f); }
  }

  /** `PageWriteGuard::write`: the bytes change under the latch and the frame is dirty. */
  lemma {:induction false} WriteKeeps(s: Pool, c: Contents, guards: multiset<Guard>, g: Guard, image: Image, s': Pool)
    requires Inv(s, c, guards) && g in guards && g.frame < |s.frames|
    requires s' == SetFrame(s, g.frame, s.frames[g.frame].(image := image, dirty := true))
    ensures Inv(s', c[g.page := image], guards)
  {
    var c' := c[g.page := image];
    assert GuardOk(s, guards, g) && PageOk(s, c, g.page);
    forall f ensures FrameOk(s', f) {
      assert FrameOk(s, f);
      assert HeldBySome(s, f) ==> HeldBySome(s', f);
    }
    forall p ensures PageOk(s', c', p) { assert PageOk(s, c, p); }
    forall u ensures TaskOk(s', c', u) { assert TaskOk(s, c, u); }
    forall u, v ensures Apart(s', u, v) { assert Apart(s, u, v); }
    forall p ensures LoadingOk(s', p) { assert LoadingOk(s, p); }
    forall p ensures EvictingOk(s', p) { assert EvictingOk(s, p); }
    forall g ensures GuardOk(s', guards, g) { assert GuardOk(s, guards, g); }
    forall f ensures PinsOk(s', guards, f) { assert PinsOk(s, guards, f); }
  }

  // ---- Starting and giving up ----

  /** Only the task of `t` may differ. */
  ghost predicate OthersSame(s: Pool, s': Pool, t: ThreadId)
  {
    forall u :: SameTask(s, s', t, u)
  }

  predicate SameTask(s: Pool, s': Pool, t: ThreadId, u: ThreadId)
  {
    u != t ==> (u in s.tasks <==> u in s'.tasks) && (u in s.tasks ==> s'.tasks[u] == s.tasks[u])
  }

  lemma {:induction false} StillHeld(s: Pool, s': Pool, t: ThreadId, f: nat)
    requires OthersSame(s, s', t)
    requires t in s.tasks && FrameOf(s.tasks[t]) == Some(f) ==> t in s'.tasks && FrameOf(s'.tasks[t]) == Some(f)
    ensures HeldBySome(s, f) ==> HeldBySome(s', f)
  {
    if HeldBySome(s, f) {
      var u :| u in s.tasks && FrameOf(s.tasks[u]) == Some(f);
      assert SameTask(s, s', t, u);
    }
  }

  lemma {:induction false} StillLoading(s: Pool, s': Pool, t: ThreadId, p: PageId)
    requires OthersSame(s, s', t) && LoadingOk(s, p) && (p in s'.loading ==> p in s.loading)
    requires p in s'.loading && t in s.tasks && Loads(s.tasks[t], p) ==> t in s'.tasks && Loads(s'.tasks[t], p)
    ensures LoadingOk(s', p)
  {
    if p in s'.loading {
      var u :| u in s.tasks && Loads(s.tasks[u], p);
      assert SameTask(s, s', t, u);
    }
  }

  lemma {:induction false} StillEvicting(s: Pool, s': Pool, t: ThreadId, p: PageId)
    requires OthersSame(s, s', t) && EvictingOk(s, p) && (p in s'.evicting ==> p in s.evicting)
    requires p in s'.evicting && t in s.tasks && Evicts(s.tasks[t], p) ==> t in s'.tasks && Evicts(s'.tasks[t], p)
    ensures EvictingOk(s', p)
  {
    if p in s'.evicting {
      var u :| u in s.tasks && Evicts(s.tasks[u], p);
      assert SameTask(s, s', t, u);
    }
  }

  /** A page that is neither cached, nor being evicted, nor being loaded is claimed by one thread. */
  lemma {:induction false} ClaimKeeps(s: Pool, c: Contents, guards: multiset<Guard>, t: ThreadId, p: PageId, s': Pool)
    requires Inv(s, c, guards) && t !in s.tasks && p !in s.table && p !in s.loading && (p in c || p !in s.disk)
    requires s' == s.(loading := s.loading + {p}, tasks := s.tasks[t := Claimed(p, Load)])
    ensures Inv(s', c, guards)
  {
    assert OthersSame(s, s', t) by { forall u ensures SameTask(s, s', t, u) { } }
    forall f ensures FrameOk(s', f) {
      assert FrameOk(s, f);
      StillHeld(s, s', t, f);
    }
    forall q ensures PageOk(s', c, q) { assert PageOk(s, c, q); }
    forall u ensures TaskOk(s', c, u) { assert SameTask(s, s', t, u) && TaskOk(s, c, u) && Apart(s, t, u); }
    forall u, v ensures Apart(s', u, v) { assert SameTask(s, s', t, u) && SameTask(s, s', t, v) && Apart(s, u, v); assert TaskOk(s, c, u) && TaskOk(s, c, v); }
    forall q ensures LoadingOk(s', q) {
      assert LoadingOk(s, q);
      if q == p { assert Loads(s'.tasks[t], q); } else { StillLoading(s, s', t, q); }
    }
    forall q ensures EvictingOk(s', q) {
      assert EvictingOk(s, q);
      StillEvicting(s, s', t, q);
    }
    forall g ensures GuardOk(s', guards, g) { assert GuardOk(s, guards, g); }
    forall f ensures PinsOk(s', guards, f) { assert PinsOk(s, guards, f); }
  }

  /** `allocate_page` extends the file by a zero page that no one else has heard of. */
  lemma {:induction false} AllocateKeeps(s: Pool, c: Contents, guards: multiset<Guard>, t: ThreadId, p: PageId, zero: Image, s': Pool)
    requires Inv(s, c, guards) && t !in s.tasks && p !in s.disk && forall u :: u in s.tasks ==> s.tasks[u].page != p
    requires s' == s.(disk := s.disk[p := zero], tasks := s.tasks[t := Claimed(p, Create)])
    ensures Inv(s', c, guards)
  {
    assert PageOk(s, c, p) && LoadingOk(s, p);
    assert OthersSame(s, s', t) by { forall u ensures SameTask(s, s', t, u) { } }
    forall f ensures FrameOk(s', f) {
      assert FrameOk(s, f);
      StillHeld(s, s', t, f);
    }
    forall q ensures PageOk(s', c, q) { assert PageOk(s, c, q); }
    forall u ensures TaskOk(s', c, u) { assert SameTask(s, s', t, u) && TaskOk(s, c, u) && Apart(s, t, u); }
    forall u, v ensures Apart(s', u, v) { assert SameTask(s, s', t, u) && SameTask(s, s', t, v) && Apart(s, u, v); }
    forall q ensures LoadingOk(s', q) {
      assert LoadingOk(s, q);
      StillLoading(s, s', t, q);
    }
    forall q ensures EvictingOk(s', q) {
      assert EvictingOk(s, q);
      StillEvicting(s, s', t, q);
    }
    forall g ensures GuardOk(s', guards, g) { assert GuardOk(s, guards, g); }
    forall f ensures PinsOk(s', guards, f) { assert PinsOk(s, guards, f); }
  }

  /** A thread that could not get a frame, or has installed its page, leaves. */
  lemma {:induction false} LeaveKeeps(s: Pool, c: Contents, guards: multiset<Guard>, t: ThreadId, s': Pool)
    requires Inv(s, c, guards) && t in s.tasks && (s.tasks[t].Claimed? || s.tasks[t].Installed?)
    requires s' == s.(loading := if s.tasks[t].goal == Load then s.loading - {s.tasks[t].page} else s.loading, tasks := s.tasks - {t})
    ensures Inv(s', c, guards)
  {
    assert TaskOk(s, c, t);
    assert OthersSame(s, s', t) by { forall u ensures SameTask(s, s', t, u) { } }
    forall f ensures FrameOk(s', f) {
      assert FrameOk(s, f);
      StillHeld(s, s', t, f);
    }
    forall q ensures PageOk(s', c, q) { assert PageOk(s, c, q); }
    forall u ensures TaskOk(s', c, u) { assert SameTask(s, s', t, u) && TaskOk(s, c, u) && Apart(s, t, u); }
    forall u, v ensures Apart(s', u, v) { assert SameTask(s, s', t, u) && SameTask(s, s', t, v) && Apart(s, u, v); }
    forall q ensures LoadingOk(s', q) {
      assert LoadingOk(s, q);
      StillLoading(s, s', t, q);
    }
    forall q ensures EvictingOk(s', q) {
      assert EvictingOk(s, q);
      StillEvicting(s, s', t, q);
    }
    forall g ensures GuardOk(s', guards, g) { assert GuardOk(s, guards, g); }
    forall f ensures PinsOk(s', guards, f) { assert PinsOk(s, guards, f); }
  }

  // ---- Taking a frame ----

  /** A frame from the free list. */
  lemma {:induction false} TakeFreeKeeps(s: Pool, c: Contents, guards: multiset<Guard>, t: ThreadId, f: nat, s': Pool)
    requires Inv(s, c, guards) && t in s.tasks && s.tasks[t].Claimed? && s.free != [] && f == s.free[|s.free| - 1] && f < |s.frames|
    requires s' == s.(free := s.free[..|s.free| - 1], frames := s.frames[f := s.frames[f].(owned := true)],
                      tasks := s.tasks[t := HasFrame(s.tasks[t].page, s.tasks[t].goal, f)])
    ensures Inv(s', c, guards)
  {
    assert FrameOk(s, f) && PinsOk(s, guards, f) && TaskOk(s, c, t);
    assert FrameOf(s'.tasks[t]) == Some(f);
    PoppedFree(s.free);
    assert OthersSame(s, s', t) by { forall u ensures SameTask(s, s', t, u) { } }
    forall g ensures FrameOk(s', g) {
      assert FrameOk(s, g);
      StillHeld(s, s', t, g);
    }
    forall q ensures PageOk(s', c, q) { assert PageOk(s, c, q); }
    forall u ensures TaskOk(s', c, u) { assert SameTask(s, s', t, u) && TaskOk(s, c, u) && Apart(s, t, u); }
    forall u, v ensures Apart(s', u, v) { assert SameTask(s, s', t, u) && SameTask(s, s', t, v) && Apart(s, u, v); assert TaskOk(s, c, u) && TaskOk(s, c, v); }
    forall q ensures LoadingOk(s', q) {
      assert LoadingOk(s, q);
      StillLoading(s, s', t, q);
    }
    forall q ensures EvictingOk(s', q) {
      assert EvictingOk(s, q);
      StillEvicting(s, s', t, q);
    }
    forall g ensures GuardOk(s', guards, g) { assert GuardOk(s, guards, g); }
    forall g ensures PinsOk(s', guards, g) { assert PinsOk(s, guards, g); }
  }

  lemma {:induction false} PoppedFree(free: seq<nat>)
    requires free != [] && FreeDistinct(free)
    ensures var rest := free[..|free| - 1]; FreeDistinct(rest) && forall f :: f in rest <==> f in free && f != free[|free| - 1]
  {
    var rest := free[..|free| - 1];
    assert free == rest + [free[|free| - 1]];
  }

  /** The frame of an evictable page; its page stays mapped, but closed, until it is clean. */
  lemma {:induction false} TakeVictimKeeps(s: Pool, c: Contents, guards: multiset<Guard>, t: ThreadId, f: nat, v: PageId, s': Pool)
    requires Inv(s, c, guards) && t in s.tasks && s.tasks[t].Claimed? && f < |s.frames| && s.frames[f].tracking == Tracked(true)
    requires s.frames[f].page == Some(v)
    requires s' == s.(frames := s.frames[f := s.frames[f].(owned := true, tracking := Untracked)], evicting := s.evicting + {v},
                      tasks := s.tasks[t := Evicting(s.tasks[t].page, s.tasks[t].goal, f, v)])
    ensures Inv(s', c, guards) && s.frames[f].pins == 0
  {
    assert FrameOk(s, f) && PinsOk(s, guards, f) && TaskOk(s, c, t);
    assert FrameOf(s'.tasks[t]) == Some(f);
    assert OthersSame(s, s', t) by { forall u ensures SameTask(s, s', t, u) { } }
    forall g ensures FrameOk(s', g) {
      assert FrameOk(s, g);
      StillHeld(s, s', t, g);
    }
    forall q ensures PageOk(s', c, q) { assert PageOk(s, c, q); }
    forall u ensures TaskOk(s', c, u) { assert SameTask(s, s', t, u) && TaskOk(s, c, u) && Apart(s, t, u); }
    forall u, w ensures Apart(s', u, w) { assert SameTask(s, s', t, u) && SameTask(s, s', t, w) && Apart(s, u, w) && TaskOk(s, c, u) && TaskOk(s, c, w); }
    forall q ensures LoadingOk(s', q) {
      assert LoadingOk(s, q);
      StillLoading(s, s', t, q);
    }
    forall q ensures EvictingOk(s', q) {
      assert EvictingOk(s, q);
      if q == v { assert Evicts(s'.tasks[t], q); } else { StillEvicting(s, s', t, q); }
    }
    forall g ensures GuardOk(s', guards, g) { assert GuardOk(s, guards, g); }
    forall g ensures PinsOk(s', guards, g) { assert PinsOk(s, guards, g); }
  }

  // ---- Flushing ----

  predicate DirtyMapped(s: Pool, ps: set<PageId>, p: PageId)
  {
    p in ps ==> p in s.table && s.table[p] < |s.frames| && s.frames[s.table[p]].dirty
  }

  /** The pages of a batch are on disk; those that were still dirty are clean. */
  predicate FlushedFrame(s: Pool, s': Pool, ps: set<PageId>, f: nat)
  {
    f < |s.frames| && f < |s'.frames| ==>
      s'.frames[f] == s.frames[f].(dirty := s.frames[f].dirty && !(s.frames[f].page.Some? && s.frames[f].page.value in ps))
  }

  predicate FlushedDisk(s: Pool, s': Pool, ps: set<PageId>, p: PageId)
  {
    && (p in s'.disk <==> p in s.disk)
    && (p in s.disk ==> if p in ps && p in s.table && s.table[p] < |s.frames| then s'.disk[p] == s.frames[s.table[p]].image else s'.disk[p] == s.disk[p])
  }

  ghost predicate Flushes(s: Pool, ps: set<PageId>, s': Pool)
  {
    && s' == s.(frames := s'.frames, disk := s'.disk) && |s'.frames| == |s.frames|
    && (forall f :: FlushedFrame(s, s', ps, f)) && forall p :: FlushedDisk(s, s', ps, p)
  }

  lemma {:induction false} FlushKeeps(s: Pool, c: Contents, guards: multiset<Guard>, ps: set<PageId>, s': Pool)
    requires Inv(s, c, guards) && Flushes(s, ps, s')
    ensures Inv(s', c, guards)
  {
    forall f ensures FrameOk(s', f) {
      assert FrameOk(s, f) && FlushedFrame(s, s', ps, f);
      assert HeldBySome(s, f) ==> HeldBySome(s', f);
    }
    forall p ensures PageOk(s', c, p) {
      assert PageOk(s, c, p) && FlushedDisk(s, s', ps, p);
      if p in s.table { assert FlushedFrame(s, s', ps, s.table[p]); }
    }
    forall u ensures TaskOk(s', c, u) {
      assert TaskOk(s, c, u);
      if u in s.tasks {
        assert FlushedDisk(s, s', ps, s.tasks[u].page);
        if FrameOf(s.tasks[u]).Some? { assert FlushedFrame(s, s', ps, s.tasks[u].frame); }
      }
    }
    forall u, w ensures Apart(s', u, w) { assert Apart(s, u, w); }
    forall p ensures LoadingOk(s', p) { assert LoadingOk(s, p); }
    forall p ensures EvictingOk(s', p) { assert EvictingOk(s, p); }
    forall g ensures GuardOk(s', guards, g) { assert GuardOk(s, guards, g); }
    forall f ensures PinsOk(s', guards, f) { assert PinsOk(s, guards, f) && FlushedFrame(s, s', ps, f); }
  }

  predicate SpoiltDisk(s: Pool, s': Pool, ps: set<PageId>, p: PageId)
  {
    (p in s'.disk <==> p in s.disk) && (p in s.disk && p !in ps ==> s'.disk[p] == s.disk[p])
  }

  /** A failed flush may leave anything on disk for the pages of its batch, which stay dirty. */
  lemma {:induction false} FailedFlushKeeps(s: Pool, c: Contents, guards: multiset<Guard>, ps: set<PageId>, s': Pool)
    requires Inv(s, c, guards) && (forall p :: DirtyMapped(s, ps, p)) && s' == s.(disk := s'.disk) && forall p :: SpoiltDisk(s, s', ps, p)
    ensures Inv(s', c, guards)
  {
    forall f ensures FrameOk(s', f) {
      assert FrameOk(s, f);
      assert HeldBySome(s, f) ==> HeldBySome(s', f);
    }
    forall p ensures PageOk(s', c, p) { assert PageOk(s, c, p) && SpoiltDisk(s, s', ps, p) && DirtyMapped(s, ps, p); }
    forall u ensures TaskOk(s', c, u) {
      assert TaskOk(s, c, u);
      if u in s.tasks { assert SpoiltDisk(s, s', ps, s.tasks[u].page) && DirtyMapped(s, ps, s.tasks[u].page); }
    }
    forall u, w ensures Apart(s', u, w) { assert Apart(s, u, w); }
    forall p ensures LoadingOk(s', p) { assert LoadingOk(s, p); }
    forall p ensures EvictingOk(s', p) { assert EvictingOk(s, p); }
    forall g ensures GuardOk(s', guards, g) { assert GuardOk(s, guards, g); }
    forall f ensures PinsOk(s', guards, f) { assert PinsOk(s, guards, f); }
  }

  // ---- Finishing an eviction ----

  /** `complete_eviction`: the clean page leaves the table, and the disk has its last bytes. */
  lemma {:induction false} CompleteEvictionKeeps(s: Pool, c: Contents, guards: multiset<Guard>, t: ThreadId, s': Pool)
    requires Inv(s, c, guards) && t in s.tasks && s.tasks[t].Evicting? && s.tasks[t].frame < |s.frames| && !s.frames[s.tasks[t].frame].dirty
    requires var k := s.tasks[t];
             s' == s.(frames := s.frames[k.frame := s.frames[k.frame].(page := None)], table := s.table - {k.victim},
                      evicting := s.evicting - {k.victim}, tasks := s.tasks[t := HasFrame(k.page, k.goal, k.frame)])
    ensures Inv(s', c, guards)
  {
    var k := s.tasks[t];
    assert TaskOk(s, c, t) && FrameOk(s, k.frame) && PageOk(s, c, k.victim) && PinsOk(s, guards, k.frame) && GuardOk(s, guards, Guard(k.frame, k.victim));
    assert OthersSame(s, s', t) by { forall u ensures SameTask(s, s', t, u) { } }
    forall g ensures FrameOk(s', g) {
      assert FrameOk(s, g);
      StillHeld(s, s', t, g);
    }
    forall q ensures PageOk(s', c, q) { assert PageOk(s, c, q); }
    forall u ensures TaskOk(s', c, u) {
      assert SameTask(s, s', t, u) && TaskOk(s, c, u) && Apart(s, t, u);
      if u in s.tasks && s.tasks[u].Evicting? { assert FrameOk(s, s.tasks[u].frame); }
    }
    forall u, w ensures Apart(s', u, w) { assert SameTask(s, s', t, u) && SameTask(s, s', t, w) && Apart(s, u, w); }
    forall q ensures LoadingOk(s', q) {
      assert LoadingOk(s, q);
      StillLoading(s, s', t, q);
    }
    forall q ensures EvictingOk(s', q) {
      assert EvictingOk(s, q);
      StillEvicting(s, s', t, q);
    }
    forall g ensures GuardOk(s', guards, g) { assert GuardOk(s, guards, g); }
    forall g ensures PinsOk(s', guards, g) { assert PinsOk(s, guards, g); }
  }

  /** `abort_eviction`: the page is open again, as dirty as it was. */
  lemma {:induction false} AbortEvictionKeeps(s: Pool, c: Contents, guards: multiset<Guard>, t: ThreadId, s': Pool)
    requires Inv(s, c, guards) && t in s.tasks && s.tasks[t].Evicting? && s.tasks[t].frame < |s.frames|
    requires var k := s.tasks[t];
             s' == s.(frames := s.frames[k.frame := s.frames[k.frame].(owned := false, tracking := Tracked(true))],
                      evicting := s.evicting - {k.victim}, tasks := s.tasks[t := Claimed(k.page, k.goal)])
    ensures Inv(s', c, guards)
  {
    var k := s.tasks[t];
    assert TaskOk(s, c, t) && FrameOk(s, k.frame) && PinsOk(s, guards, k.frame);
    assert OthersSame(s, s', t) by { forall u ensures SameTask(s, s', t, u) { } }
    forall g ensures FrameOk(s', g) {
      assert FrameOk(s, g);
      if g != k.frame { StillHeld(s, s', t, g); }
    }
    forall q ensures PageOk(s', c, q) { assert PageOk(s, c, q); }
    forall u ensures TaskOk(s', c, u) {
      assert SameTask(s, s', t, u) && TaskOk(s, c, u) && Apart(s, t, u);
      if u in s.tasks && s.tasks[u].Evicting? { assert FrameOk(s, s.tasks[u].frame); }
    }
    forall u, w ensures Apart(s', u, w) { assert SameTask(s, s', t, u) && SameTask(s, s', t, w) && Apart(s, u, w); }
    forall q ensures LoadingOk(s', q) {
      assert LoadingOk(s, q);
      StillLoading(s, s', t, q);
    }
    forall q ensures EvictingOk(s', q) {
      assert EvictingOk(s, q);
      StillEvicting(s, s', t, q);
    }
    forall g ensures GuardOk(s', guards, g) { assert GuardOk(s, guards, g); }
    forall g ensures PinsOk(s', guards, g) { assert PinsOk(s, guards, g); }
  }

  // ---- Loading and installing ----

  /** The page as read from disk, or the zero page of a new one. */
  lemma {:induction false} ReadKeeps(s: Pool, c: Contents, guards: multiset<Guard>, t: ThreadId, image: Image, s': Pool)
    requires Inv(s, c, guards) && t in s.tasks && s.tasks[t].HasFrame?
    requires s.tasks[t].goal == Load ==> s.tasks[t].page in s.disk && image == s.disk[s.tasks[t].page]
    requires s' == s.(tasks := s.tasks[t := Loaded(s.tasks[t].page, s.tasks[t].goal, s.tasks[t].frame, image)])
    ensures Inv(s', c, guards)
  {
    assert TaskOk(s, c, t) && PageOk(s, c, s.tasks[t].page);
    assert OthersSame(s, s', t) by { forall u ensures SameTask(s, s', t, u) { } }
    forall g ensures FrameOk(s', g) {
      assert FrameOk(s, g);
      StillHeld(s, s', t, g);
    }
    forall q ensures PageOk(s', c, q) { assert PageOk(s, c, q); }
    forall u ensures TaskOk(s', c, u) { assert SameTask(s, s', t, u) && TaskOk(s, c, u) && Apart(s, t, u); }
    forall u, w ensures Apart(s', u, w) { assert SameTask(s, s', t, u) && SameTask(s, s', t, w) && Apart(s, u, w); }
    forall q ensures LoadingOk(s', q) {
      assert LoadingOk(s, q);
      StillLoading(s, s', t, q);
    }
    forall q ensures EvictingOk(s', q) {
      assert EvictingOk(s, q);
      StillEvicting(s, s', t, q);
    }
    forall g ensures GuardOk(s', guards, g) { assert GuardOk(s, guards, g); }
    forall g ensures PinsOk(s', guards, g) { assert PinsOk(s, guards, g); }
  }

  /** `release_owned_frame` after a read that failed. */
  lemma {:induction false} ReleaseKeeps(s: Pool, c: Contents, guards: multiset<Guard>, t: ThreadId, s': Pool)
    requires Inv(s, c, guards) && t in s.tasks && s.tasks[t].HasFrame? && s.tasks[t].frame < |s.frames|
    requires var k := s.tasks[t];
             s' == s.(frames := s.frames[k.frame := s.frames[k.frame].(owned := false)], free := s.free + [k.frame],
                      tasks := s.tasks[t := Claimed(k.page, k.goal)])
    ensures Inv(s', c, guards)
  {
    var k := s.tasks[t];
    assert TaskOk(s, c, t) && FrameOk(s, k.frame);
    assert OthersSame(s, s', t) by { forall u ensures SameTask(s, s', t, u) { } }
    forall g ensures FrameOk(s', g) {
      assert FrameOk(s, g);
      if g != k.frame { StillHeld(s, s', t, g); }
    }
    forall q ensures PageOk(s', c, q) { assert PageOk(s, c, q); }
    forall u ensures TaskOk(s', c, u) { assert SameTask(s, s', t, u) && TaskOk(s, c, u) && Apart(s, t, u); }
    forall u, w ensures Apart(s', u, w) { assert SameTask(s, s', t, u) && SameTask(s, s', t, w) && Apart(s, u, w); }
    forall q ensures LoadingOk(s', q) {
      assert LoadingOk(s, q);
      StillLoading(s, s', t, q);
    }
    forall q ensures EvictingOk(s', q) {
      assert EvictingOk(s, q);
      StillEvicting(s, s', t, q);
    }
    forall g ensures GuardOk(s', guards, g) { assert GuardOk(s, guards, g); }
    forall g ensures PinsOk(s', guards, g) { assert PinsOk(s, guards, g); }
  }

  /** `try_install`: the page is in no other frame, so the thread's own frame takes it, pinned. */
  lemma {:induction false} InstallKeeps(s: Pool, c: Contents, guards: multiset<Guard>, t: ThreadId, s': Pool, c': Contents, guards': multiset<Guard>)
    requires Inv(s, c, guards) && t in s.tasks && s.tasks[t].Loaded? && s.tasks[t].frame < |s.frames|
    requires var k := s.tasks[t];
             && s' == s.(frames := s.frames[k.frame := Frame(k.image, 1, k.goal == Create, Some(k.page), false, Tracked(false))],
                         table := s.table[k.page := k.frame],
                         tasks := if k.goal == Load then s.tasks[t := Installed(k.page, Load)] else s.tasks - {t})
             && c' == (if k.goal == Load then c else c[k.page := k.image]) && guards' == guards + multiset{Guard(k.frame, k.page)}
    ensures Inv(s', c', guards') && s.tasks[t].page !in s.table
  {
    var k := s.tasks[t];
    assert TaskOk(s, c, t) && FrameOk(s, k.frame) && PageOk(s, c, k.page) && PinsOk(s, guards, k.frame) && GuardOk(s, guards, Guard(k.frame, k.page));
    assert OthersSame(s, s', t) by { forall u ensures SameTask(s, s', t, u) { } }
    forall g ensures FrameOk(s', g) {
      assert FrameOk(s, g);
      if g != k.frame { StillHeld(s, s', t, g); }
    }
    forall q ensures PageOk(s', c', q) { assert PageOk(s, c, q); }
    forall u ensures TaskOk(s', c', u) { assert SameTask(s, s', t, u) && TaskOk(s, c, u) && Apart(s, t, u); }
    forall u, w ensures Apart(s', u, w) { assert SameTask(s, s', t, u) && SameTask(s, s', t, w) && Apart(s, u, w); }
    forall q ensures LoadingOk(s', q) {
      assert LoadingOk(s, q);
      StillLoading(s, s', t, q);
    }
    forall q ensures EvictingOk(s', q) {
      assert EvictingOk(s, q);
      StillEvicting(s, s', t, q);
    }
    forall g ensures GuardOk(s', guards', g) { assert GuardOk(s, guards, g); }
    forall g ensures PinsOk(s', guards', g) { assert PinsOk(s, guards, g); }
  }

  // ---- The pool ----

  datatype Attempt = Hit(frame: nat) | Mine | Wait

  lemma {:induction false} Replaced(m: map<ThreadId, Task>, m': map<ThreadId, Task>, t: ThreadId)
    requires t in m' && m' == m[t := m'[t]]
    ensures m' - {t} == m - {t}
  {
  }

  class BufferPool {
    var s: Pool
    var poisoned: bool
    ghost var c: Contents
    ghost var guards: multiset<Guard>

    ghost predicate Valid()
      reads this
    {
      Inv(s, c, guards)
    }

    /** `size` free frames over what is on disk. */
    constructor (size: nat, disk: map<PageId, Image>)
      ensures Valid() && c == disk && guards == multiset{} && s.disk == disk && s.tasks == map[] && |s.frames| == size && !poisoned
    {
      s := Pool(seq(size, _ => Frame([], 0, false, None, false, Untracked)), map[], seq(size, i => i), {}, {}, disk, map[]);
      poisoned := false;
      c, guards := disk, multiset{};
      new;
      forall f: nat ensures FrameOk(s, f) { if f < size { assert s.free[f] == f; } }
    }

    /** Under the index lock, `fetch_frame` pins a cached page, claims an absent one, or must wait. */
    method StartFetch(t: ThreadId, p: PageId) returns (r: Attempt)
      requires Valid() && t !in s.tasks && (p in c || p !in s.disk)
      modifies this`s, this`guards
      ensures Valid()
      ensures r == Wait <==> p in old(s.evicting) || (p !in old(s.table) && p in old(s.loading))
      ensures r.Hit? ==> guards == old(guards) + multiset{Guard(r.frame, p)} && s.tasks == old(s.tasks)
      ensures r == Mine ==> guards == old(guards) && s == old(s).(loading := old(s.loading) + {p}, tasks := old(s.tasks)[t := Claimed(p, Load)])
      ensures r == Wait ==> s == old(s) && guards == old(guards)
    {
      if p in s.evicting { return Wait; }
      ghost var s0, guards0 := s, guards;
      if p in s.table {
        assert PageOk(s, c, p);
        var f := s.table[p];
        s := SetFrame(s, f, Pin(s.frames[f]));
        guards := guards + multiset{Guard(f, p)};
        PinKeeps(s0, c, guards0, p, s, guards);
        return Hit(f);
      }
      if p in s.loading { return Wait; }
      s := s.(loading := s.loading + {p}, tasks := s.tasks[t := Claimed(p, Load)]);
      ClaimKeeps(s0, c, guards, t, p, s);
      return Mine;
    }

    /** `allocate_page` of a new page. Nobody asks for a page before `new_page` has returned it. */
    method StartNewPage(t: ThreadId, p: PageId, zero: Image)
      requires Valid() && t !in s.tasks && p !in s.disk && forall u :: u in s.tasks ==> s.tasks[u].page != p
      modifies this`s
      ensures Valid() && s == old(s).(disk := old(s.disk)[p := zero], tasks := old(s.tasks)[t := Claimed(p, Create)])
    {
      ghost var s0 := s;
      s := s.(disk := s.disk[p := zero], tasks := s.tasks[t := Claimed(p, Create)]);
      AllocateKeeps(s0, c, guards, t, p, zero, s);
    }

    /** Under the index lock, `acquire_free_frame` takes a free frame or any evictable one. No pinned frame is taken. */
    method TakeFrame(t: ThreadId) returns (ok: bool)
      requires Valid() && t in s.tasks && s.tasks[t].Claimed?
      modifies this`s
      ensures Valid() && (!ok ==> s == old(s)) && s.disk == old(s.disk) && |s.frames| == |old(s.frames)| && s.table == old(s.table)
      ensures ok ==> t in s.tasks && (s.tasks[t].HasFrame? || s.tasks[t].Evicting?) && s.tasks[t].frame < |s.frames| && old(s.frames)[s.tasks[t].frame].pins == 0
                     && s.tasks == old(s.tasks)[t := s.tasks[t]] && s.tasks[t].page == old(s.tasks[t].page) && s.tasks[t].goal == old(s.tasks[t].goal)
      ensures !ok <==> old(s.free) == [] && forall f :: 0 <= f < |s.frames| ==> old(s.frames)[f].tracking != Tracked(true)
    {
      ghost var s0 := s;
      var k := s.tasks[t];
      if s.free != [] {
        var f := s.free[|s.free| - 1];
        assert FrameOk(s, f);
        s := s.(free := s.free[..|s.free| - 1], frames := s.frames[f := s.frames[f].(owned := true)], tasks := s.tasks[t := HasFrame(k.page, k.goal, f)]);
        TakeFreeKeeps(s0, c, guards, t, f, s);
        return true;
      }
      if f :| 0 <= f < |s.frames| && s.frames[f].tracking == Tracked(true) {
        assert FrameOk(s, f);
        var v := s.frames[f].page.value;
        s := s.(frames := s.frames[f := s.frames[f].(owned := true, tracking := Untracked)], evicting := s.evicting + {v},
                tasks := s.tasks[t := Evicting(k.page, k.goal, f, v)]);
        TakeVictimKeeps(s0, c, guards, t, f, v, s);
        return true;
      }
      return false;
    }

    /** `flush_pages` as one step. On failure the disk may hold anything for the pages of the batch. */
    method FlushBatch(ps: set<PageId>) returns (ok: bool)
      requires Valid() && forall p :: DirtyMapped(s, ps, p)
      modifies this`s, this`poisoned
      ensures Valid() && s.disk.Keys == old(s.disk.Keys) && (ok ==> Flushes(old(s), ps, s) && poisoned == old(poisoned)) && (!ok ==> s == old(s).(disk := s.disk))
      ensures old(poisoned) ==> !ok && poisoned && s == old(s)
    {
      if poisoned { return false; }
      ghost var s0 := s;
      ok := *;
      if ok {
        s := Flushed(s, ps);
        assert s.disk.Keys == s0.disk.Keys;
        FlushKeeps(s0, c, guards, ps, s);
        return;
      }
      var spoilt: map<PageId, Image> := *;
      poisoned := *;
      s := s.(disk := map p | p in s.disk :: if p in ps && p in spoilt then spoilt[p] else s.disk[p]);
      assert s.disk.Keys == s0.disk.Keys;
      FailedFlushKeeps(s0, c, guards, ps, s);
    }

    /** The rest of an eviction: flush the victim if it is dirty, then free the frame of it, or put it back. */
    method Evict(t: ThreadId) returns (ok: bool)
      requires Valid() && t in s.tasks && s.tasks[t].Evicting?
      modifies this`s, this`poisoned
      ensures Valid() && s.disk.Keys == old(s.disk.Keys)
      ensures var k := old(s.tasks[t]); s.tasks == old(s.tasks)[t := if ok then HasFrame(k.page, k.goal, k.frame) else Claimed(k.page, k.goal)]
    {
      var k := s.tasks[t];
      assert TaskOk(s, c, t) && FrameOk(s, k.frame);
      ok := true;
      if s.frames[k.frame].dirty {
        ghost var dirty := s;
        forall p ensures DirtyMapped(s, {k.victim}, p) { }
        ok := FlushBatch({k.victim});
        assert ok ==> FlushedFrame(dirty, s, {k.victim}, k.frame);
      }
      ghost var s0 := s;
      assert TaskOk(s, c, t);
      if ok {
        s := s.(frames := s.frames[k.frame := s.frames[k.frame].(page := None)], table := s.table - {k.victim},
                evicting := s.evicting - {k.victim}, tasks := s.tasks[t := HasFrame(k.page, k.goal, k.frame)]);
        CompleteEvictionKeeps(s0, c, guards, t, s);
      } else {
        s := s.(frames := s.frames[k.frame := s.frames[k.frame].(owned := false, tracking := Tracked(true))],
                evicting := s.evicting - {k.victim}, tasks := s.tasks[t := Claimed(k.page, k.goal)]);
        AbortEvictionKeeps(s0, c, guards, t, s);
      }
    }

    /** Read the page from disk. A page that is not there gives its frame back. */
    method ReadPage(t: ThreadId, zero: Image) returns (ok: bool)
      requires Valid() && t in s.tasks && s.tasks[t].HasFrame?
      modifies this`s
      ensures Valid() && s.disk == old(s.disk)
      ensures ok <==> old(s.tasks[t].goal == Create || s.tasks[t].page in s.disk)
      ensures var k := old(s.tasks[t]);
              if ok then t in s.tasks && s.tasks[t].Loaded? && s.tasks == old(s.tasks)[t := Loaded(k.page, k.goal, k.frame, s.tasks[t].image)]
                         && (k.goal == Create ==> s.tasks[t].image == zero)
              else s.tasks == old(s.tasks)[t := Claimed(k.page, k.goal)]
    {
      ghost var s0 := s;
      var k := s.tasks[t];
      assert TaskOk(s, c, t);
      if k.goal == Create || k.page in s.disk {
        var image := if k.goal == Create then zero else s.disk[k.page];
        s := s.(tasks := s.tasks[t := Loaded(k.page, k.goal, k.frame, image)]);
        ReadKeeps(s0, c, guards, t, image, s);
        return true;
      }
      s := s.(frames := s.frames[k.frame := s.frames[k.frame].(owned := false)], free := s.free + [k.frame], tasks := s.tasks[t := Claimed(k.page, k.goal)]);
      ReleaseKeeps(s0, c, guards, t, s);
      return false;
    }

    /** `try_install`. The page is in no other frame: the branch that gives the frame back to a winner is never taken. */
    method Install(t: ThreadId) returns (g: Guard)
      requires Valid() && t in s.tasks && s.tasks[t].Loaded?
      modifies this`s, this`c, this`guards
      ensures Valid() && g.page == old(s.tasks[t].page) && guards == old(guards) + multiset{g} && s.disk == old(s.disk)
      ensures old(s.tasks[t].page !in s.table)
      ensures c == if old(s.tasks[t].goal) == Load then old(c) else old(c)[g.page := old(s.tasks[t].image)]
      ensures s.tasks == if old(s.tasks[t].goal) == Load then old(s.tasks)[t := Installed(g.page, Load)] else old(s.tasks) - {t}
    {
      ghost var s0, c0, guards0 := s, c, guards;
      var k := s.tasks[t];
      assert TaskOk(s, c, t);
      g := Guard(k.frame, k.page);
      s := s.(frames := s.frames[k.frame := Frame(k.image, 1, k.goal == Create, Some(k.page), false, Tracked(false))],
              table := s.table[k.page := k.frame], tasks := if k.goal == Load then s.tasks[t := Installed(k.page, Load)] else s.tasks - {t});
      c := if k.goal == Load then c else c[k.page := k.image];
      guards := guards + multiset{g};
      InstallKeeps(s0, c0, guards0, t, s, c, guards);
    }

    /** The page is no longer being loaded, whether it was installed or not. */
    method Leave(t: ThreadId)
      requires Valid() && t in s.tasks && (s.tasks[t].Claimed? || s.tasks[t].Installed?)
      modifies this`s
      ensures Valid() && s.tasks == old(s.tasks) - {t} && s.disk == old(s.disk)
    {
      ghost var s0 := s;
      var k := s.tasks[t];
      s := s.(loading := if k.goal == Load then s.loading - {k.page} else s.loading, tasks := s.tasks - {t});
      LeaveKeeps(s0, c, guards, t, s);
    }

    /** From a claim to a pinned frame, or to the claim given up. */
    method Finish(t: ThreadId, zero: Image) returns (r: Option<Guard>)
      requires Valid() && t in s.tasks && s.tasks[t].Claimed?
      modifies this
      ensures Valid() && s.tasks == old(s.tasks) - {t} && s.disk.Keys == old(s.disk.Keys)
      ensures r.Some? ==> r.value.page == old(s.tasks[t].page) && guards == old(guards) + multiset{r.value}
      ensures r.None? ==> guards == old(guards)
      ensures c == if r.Some? && old(s.tasks[t].goal) == Create then old(c)[r.value.page := zero] else old(c)
    {
      var goal := s.tasks[t].goal;
      var ok := Obtain(t, zero);
      if !ok {
        Leave(t);
        return None;
      }
      var g := Install(t);
      if goal == Load { Leave(t); }
      return Some(g);
    }

    /** A frame for the page, read from disk; or no frame and the claim as before. */
    method Obtain(t: ThreadId, zero: Image) returns (ok: bool)
      requires Valid() && t in s.tasks && s.tasks[t].Claimed?
      modifies this`s, this`poisoned
      ensures Valid() && s.disk.Keys == old(s.disk.Keys) && t in s.tasks && s.tasks - {t} == old(s.tasks) - {t}
      ensures s.tasks[t].page == old(s.tasks[t].page) && s.tasks[t].goal == old(s.tasks[t].goal)
      ensures if ok then s.tasks[t].Loaded? && (s.tasks[t].goal == Create ==> s.tasks[t].image == zero) else s.tasks[t].Claimed?
    {
      ghost var tasks := s.tasks;
      ok := TakeFrame(t);
      if !ok { return; }
      Replaced(tasks, s.tasks, t);
      if s.tasks[t].Evicting? {
        ghost var mid := s.tasks;
        ok := Evict(t);
        Replaced(mid, s.tasks, t);
      }
      if ok {
        ghost var mid := s.tasks;
        ok := ReadPage(t, zero);
        Replaced(mid, s.tasks, t);
      }
    }

    /** A completed fetch pins a frame that holds the last bytes written to the page. */
    method Fetch(t: ThreadId, p: PageId) returns (r: Option<Guard>)
      requires Valid() && t !in s.tasks && (p in c || p !in s.disk)
      modifies this
      ensures Valid() && c == old(c) && s.tasks == old(s.tasks)
      ensures r.Some? ==> r.value.page == p && guards == old(guards) + multiset{r.value}
                          && p in c && r.value.frame < |s.frames| && s.frames[r.value.frame].image == c[p]
      ensures r.None? ==> guards == old(guards)
    {
      var a := StartFetch(t, p);
      match a {
        case Hit(f) => r := Some(Guard(f, p));
        case Mine =>
          r := Finish(t, []);
          assert s.tasks == old(s.tasks);
        case Wait => r := None;
      }
      if r.Some? { GuardReadsLastBytes(s, c, guards, r.value); }
    }

    /** A completed new page is pinned and zero. */
    method NewPage(t: ThreadId, p: PageId, zero: Image) returns (r: Option<Guard>)
      requires Valid() && t !in s.tasks && p !in s.disk && forall u :: u in s.tasks ==> s.tasks[u].page != p
      modifies this
      ensures Valid() && s.tasks == old(s.tasks)
      ensures r.Some? ==> r.value.page == p && guards == old(guards) + multiset{r.value} && c == old(c)[p := zero]
      ensures r.None? ==> guards == old(guards) && c == old(c)
    {
      StartNewPage(t, p, zero);
      r := Finish(t, zero);
      assert s.tasks == old(s.tasks);
    }

    /** Reading through a guard. */
    method Read(g: Guard) returns (image: Image)
      requires Valid() && g in guards
      ensures g.page in c && image == c[g.page]
    {
      GuardReadsLastBytes(s, c, guards, g);
      image := s.frames[g.frame].image;
    }

    /** `PageWriteGuard::write`. */
    method Write(g: Guard, image: Image)
      requires Valid() && g in guards
      modifies this`s, this`c
      ensures Valid() && c == old(c)[g.page := image] && s == old(s).(frames := s.frames)
    {
      GuardReadsLastBytes(s, c, guards, g);
      ghost var s0, c0 := s, c;
      s := SetFrame(s, g.frame, s.frames[g.frame].(image := image, dirty := true));
      c := c[g.page := image];
      WriteKeeps(s0, c0, guards, g, image, s);
    }

    /** `unpin_frame` before it takes the index lock. */
    method DropPin(g: Guard) returns (last: bool)
      requires Valid() && g in guards
      modifies this`s, this`guards
      ensures Valid() && guards == old(guards) - multiset{g} && s == old(s).(frames := s.frames)
    {
      GuardReadsLastBytes(s, c, guards, g);
      ghost var s0, guards0 := s, guards;
      s := SetFrame(s, g.frame, s.frames[g.frame].(pins := s.frames[g.frame].pins - 1));
      guards := guards - multiset{g};
      DropPinKeeps(s0, c, guards0, g, s);
      last := s.frames[g.frame].pins == 0;
    }

    /** `unpin_frame` under the index lock; other threads may have pinned or taken the frame since. */
    method SettlePin(f: nat)
      requires Valid() && f < |s.frames|
      modifies this`s
      ensures Valid() && s == old(s).(frames := s.frames)
    {
      if s.frames[f].pins == 0 && !s.frames[f].owned {
        ghost var s0 := s;
        s := SetFrame(s, f, s.frames[f].(tracking := if s.frames[f].tracking.Tracked? then Tracked(true) else Untracked));
        SettlePinKeeps(s0, c, guards, f, s);
      }
    }
  }

  function Flushed(s: Pool, ps: set<PageId>): (r: Pool)
    ensures Flushes(s, ps, r)
  {
    s.(frames := seq(|s.frames|, f requires 0 <= f < |s.frames| => CleanIf(s.frames[f], ps)),
       disk := map p | p in s.disk :: if p in ps && p in s.table && s.table[p] < |s.frames| then s.frames[s.table[p]].image else s.disk[p])
  }

  function CleanIf(x: Frame, ps: set<PageId>): Frame
  {
    x.(dirty := x.dirty && !(x.page.Some? && x.page.value in ps))
  }
}
