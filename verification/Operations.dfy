/** Every operation, from any state between calls, with or without a mapping: each disk it
    passes through recovers to the contents before the call or after it, and the state it ends
    in is good again. */
module Operations {
  import opened Bytes
  import opened Results
  import opened Metadata
  import opened Layout
  import opened Disks
  import opened Recovery
  import opened Sorting
  import opened PagerSpec
  import opened Ownership
  import opened Safety
  import opened DirSafety
  import opened RawAllocation
  import opened DirChanges
  import opened Entries

  // ── Bitmap-only operations ─────────────────────────────────────────────────

  lemma UncommittedSteady(g: Geometry, s: Sys, a: Abs)
    requires Steady(g, s, a) && s.mem.meta.generation + 1 < U64_LIMIT
    ensures Steady(g, WithMeta(s, NextGeneration(s.mem.meta)), a)
  {
    hide Survives, Sound, Sized, Consistent, DirsLag;
    BumpConsistent(g, Held(s), s.dur.active);
  }

  lemma CommittedSteady(g: Geometry, s: Sys, s': Sys, a: Abs)
    requires Agrees(s) && Durable(g, s', a)
    requires s'.mem == s.mem.(meta := NextGeneration(s.mem.meta), active := s.mem.active.Other())
    requires s'.dur == Committed(s) && Consistent(g, s'.dur) && |s'.disk.mapped| == |s.disk.mapped|
    ensures Steady(g, s', a)
  {
    hide Durable, Consistent, DirsLag;
  }

  /** A bitmap commit. Without a mapping it fails, and only memory's generation moves on. */
  lemma CommitSteady(g: Geometry, s: Sys, a: Abs, x: Abs, y: Abs)
    requires Steady(g, s, a) && s.mem.meta.generation + 1 < U64_LIMIT
    requires TraceOk(g, s.trace, x, y) && (a == x || a == y)
    ensures
      var (s', r) := Commit(g, s);
      && Steady(g, s', a) && TraceOk(g, s'.trace, x, y)
      && (s.mapped ==> s'.dur == Committed(s))
  {
    hide Durable, TraceOk, Consistent, Publish, DirsLag, MetaBytes, Page0Bytes;
    CommitFrame(g, s);
    if s.mapped {
      CommitSafe(g, s, a, x, y);
      CommittedSteady(g, s, Commit(g, s).0, a);
    } else {
      UncommittedSteady(g, s, a);
    }
  }

  lemma RemarkSteady(g: Geometry, s: Sys, meta: Meta, a: Abs)
    requires Steady(g, s, a) && Consistent(g, Held(s).(meta := meta)) && meta.total == s.mem.meta.total
    ensures Steady(g, WithMeta(s, meta), a)
  {
    hide Consistent, Survives, Settled, Sized, DirsLag;
  }

  lemma AllocSafe(g: Geometry, s: Sys, env: Env, a: Abs)
    requires Steady(g, s, a) && Capacity(g, s.mem.meta, 1) && s.mem.meta.generation + 1 < U64_LIMIT
    requires TraceOk(g, s.trace, a, a)
    ensures
      var (s', r) := Alloc(g, s, env);
      && Steady(g, s', a) && TraceOk(g, s'.trace, a, a)
      && (r.Ok? ==> s'.mapped) && s'.mem.dirs == s.mem.dirs
  {
    hide Steady, TraceOk, Capacity, AllocRaw, Commit, TookPage;
    RawSafe(g, s, env, 1, a, a, a);
    RawGeneration(g, s, env);
    RawKeepsDirs(g, s, env);
    var (s1, r) := AllocRaw(g, s, env);
    if r.Ok? {
      CommitSteady(g, s1, a, a, a);
      CommitFrame(g, s1);
    }
  }

  lemma RawGeneration(g: Geometry, s: Sys, env: Env)
    ensures AllocRaw(g, s, env).0.mem.meta.generation == s.mem.meta.generation
  {
  }

  /** A page no entry and no block refers to, in memory or on disk, may be released. */
  lemma ReleasableFresh(s: Sys, id: nat)
    requires FIRST_DATA_PAGE <= id && Allocated(s.mem.meta, id) && id !in Referenced(s.dur)
    ensures FreshPage(Held(s), id)
  {
    hide Referenced, Allocated;
    SameDirectory(s.dur, Held(s));
  }

  /** What `free` answers: the error tells a reserved page, a page beyond the file and a page that is
      not in use apart; for a page in use the only obstacle is a missing mapping. */
  ghost predicate FreeReply(s: Sys, id: nat, r: Result<()>) {
    var used := AllocatedSet(s.mem.meta);
    && (r == Err(ReservedPage) <==> id < 3)
    && (r == Err(OutOfBounds) <==> id >= 3 && id >= s.mem.meta.total)
    && (r == Err(DoubleFree) <==> 3 <= id < s.mem.meta.total && id !in used)
    && (r == Err(Unavailable) <==> id >= 3 && id in used && !s.mapped)
    && (r.Ok? <==> id >= 3 && id in used && s.mapped)
  }

  lemma FreeAnswers(g: Geometry, s: Sys, id: nat)
    requires Exact(s.mem.meta)
    ensures FreeReply(s, id, Free(g, s, id).1)
  {
    hide AllocatedSet, Commit, Unmark;
    InAllocatedSet(s.mem.meta, id);
    CommitFrame(g, WithMeta(s, Unmark(s.mem.meta, id)));
  }

  lemma FreeSafe(g: Geometry, s: Sys, id: nat, a: Abs)
    requires Steady(g, s, a) && s.mem.meta.generation + 1 < U64_LIMIT
    requires id !in Referenced(s.dur)
    requires TraceOk(g, s.trace, a, a)
    ensures
      var (s', r) := Free(g, s, id);
      && Steady(g, s', a) && TraceOk(g, s'.trace, a, a) && s'.mem.dirs == s.mem.dirs && s'.mapped == s.mapped
      && (r.Err? && s.mapped ==> s' == s) && FreeReply(s, id, r)
  {
    hide TraceOk, Commit, Referenced, Durable, Allocated, Consistent, DirsLag, Unmark, Exact, FreeReply;
    SteadyExact(g, s, a);
    FreeAnswers(g, s, id);
    if FIRST_DATA_PAGE <= id && Allocated(s.mem.meta, id) {
      SteadyMeta(g, s, a);
      ReleasableFresh(s, id);
      UnmarkConsistent(g, Held(s), id);
      UnmarkFrees(s.mem.meta, id);
      var t := WithMeta(s, Unmark(s.mem.meta, id));
      RemarkSteady(g, s, t.mem.meta, a);
      CommitSteady(g, t, a, a, a);
      CommitFrame(g, t);
    }
  }

  lemma SteadyExact(g: Geometry, s: Sys, a: Abs)
    requires Steady(g, s, a)
    ensures Exact(s.mem.meta)
  {
    hide Steady, Exact, Consistent;
    SteadyMeta(g, s, a);
  }

  /** One step on a disk page that recovery does not need. */
  lemma SteppedSteady(g: Geometry, s: Sys, d: Disk, i: nat, a: Abs, x: Abs, y: Abs)
    requires Steady(g, s, a) && Untouchable(g, s.dur, i) && SameExcept(s.disk, d, i)
    requires Settled(d) && Sized(g, d) && d.durable[0] == s.disk.durable[0] && |d.mapped| == |s.disk.mapped|
    requires TraceOk(g, s.trace, x, y) && (a == x || a == y)
    ensures Steady(g, Step(s, d), a) && TraceOk(g, Step(s, d).trace, x, y)
  {
    hide *;
    SteadyParts(g, s, a);
    TouchSafe(g, s, d, i, a, x, y);
    StepFrame(s, d);
    StillSteady(g, s, Step(s, d), a);
  }

  /** A store to a regular page, or to the inactive copy of a protected one. */
  lemma StoreSafe(g: Geometry, s: Sys, i: nat, page: Page, a: Abs)
    requires Steady(g, s, a) && Untouchable(g, s.dur, i) && TraceOk(g, s.trace, a, a)
    requires i < |s.disk.mapped| && |page| == g.pageSize
    ensures
      var s' := Step(s, Store(s.disk, i, page));
      Steady(g, s', a) && TraceOk(g, s'.trace, a, a)
  {
    hide Steady, TraceOk, Untouchable, Settled, SameExcept, Sized;
    SteadyParts(g, s, a);
    UntouchableNonzero(g, s.dur, i);
    StoreAndFlush(s.disk, i, page);
    StoreSized(g, s.disk, i, page);
    SteppedSteady(g, s, Store(s.disk, i, page), i, a, a, a);
  }

  lemma WriteRegularSafe(g: Geometry, s: Sys, id: nat, page: Page, a: Abs)
    requires Steady(g, s, a) && id !in Referenced(s.dur) && |page| == g.pageSize && TraceOk(g, s.trace, a, a)
    ensures
      var (s', r) := WriteRegular(s, id, page);
      && Steady(g, s', a) && TraceOk(g, s'.trace, a, a) && s'.mem == s.mem && s'.mapped == s.mapped
  {
    hide Steady, TraceOk, Untouchable, Referenced, Store;
    if FIRST_DATA_PAGE <= id < s.mem.meta.total {
      SteadyParts(g, s, a);
      UnreferencedUntouchable(g, s.dur, id);
      StoreSafe(g, s, id, page, a);
    }
  }

  /** The inactive copy of a page in use, which memory and the durable directory agree on. */
  lemma CopyMayBeWritten(g: Geometry, s: Sys, id: nat, a: Abs)
    requires Steady(g, s, a) && InUse(g, s.mem, id)
    ensures InUse(g, s.dur, id) && EntryOf(g, s.dur, id) == EntryOf(g, s.mem, id)
    ensures Untouchable(g, s.dur, InactivePhys(EntryOf(g, s.mem, id)))
    ensures 0 < InactivePhys(EntryOf(g, s.mem, id)) < |s.disk.mapped|
    ensures EntryOf(g, s.mem, id).activeSlot <= 1
  {
    hide Steady, Untouchable, Consistent, DirsLag, BlockOf, SlotOf, Owned;
    SteadyLag(g, s, a);
    SteadyParts(g, s, a);
    LagInUse(g, s.mem, s.dur, id);
    InUseHasEntry(g, s.dur, id);
    SlotBound(g, s.dur, BlockOf(g, id), SlotOf(g, id));
    OwnedOf(g, s.dur);
    InactiveCopyUntouchable(g, s.dur, id);
    EntryPagesOwned(s.dur, BlockOf(g, id), SlotOf(g, id));
  }

  lemma StageWriteSafe(g: Geometry, s: Sys, id: nat, page: Page, a: Abs)
    requires Steady(g, s, a) && TraceOk(g, s.trace, a, a) && |page| == g.pageSize
    ensures
      var (s', r) := StageWrite(g, s, id, page);
      Steady(g, s', a) && TraceOk(g, s'.trace, a, a) && (r.Err? ==> s' == s)
  {
    hide Steady, TraceOk, Untouchable, EntryOf, Store, InactivePhys;
    if InUse(g, s.mem, id) {
      CopyMayBeWritten(g, s, id, a);
      StoreSafe(g, s, InactivePhys(EntryOf(g, s.mem, id)), page, a);
    }
  }

  // ── Freeing a protected page ───────────────────────────────────────────────

  /** Once its entry is dropped, both backing pages are allocated but referenced by nothing. */
  lemma DroppedPagesFresh(m: Mem, b: nat, slot: nat)
    requires Owned(m) && HasEntry(m, b, slot) && m.dirs[b].entries[slot].inUse
    ensures
      var e := m.dirs[b].entries[slot];
      var m' := Rewritten(m, b, slot, e.(inUse := false));
      FreshPage(m', e.pageA) && FreshPage(m', e.pageB) && e.pageA != e.pageB
  {
    hide Referenced;
    var e := m.dirs[b].entries[slot];
    var m' := Rewritten(m, b, slot, e.(inUse := false));
    SetEntryReferenced(m, b, slot, e.(inUse := false));
    CopiesDistinct(m, b, slot);
    assert Referenced(m') + EntryBag(e) == Referenced(m);
    forall x: nat | x in EntryBag(e)
      ensures FreshPage(m', x)
    {
      assert (Referenced(m') + EntryBag(e))[x] == Referenced(m)[x];
      assert Referenced(m)[x] <= 1;
    }
    assert e.pageA in EntryBag(e) && e.pageB in EntryBag(e);
  }

  lemma FlipReferenced(m: Mem, b: nat)
    requires b < |m.blocks|
    ensures Referenced(m.(blocks := FlipBlock(m.blocks, b))) == Referenced(m)
  {
    hide BlockPages, BackingPages;
    var r := m.blocks[b];
    SetBlockBag(m, b, r.(active := r.active.Other()));
    BackingOfDirs(m, m.(blocks := FlipBlock(m.blocks, b)));
  }

  /** Releasing two unreferenced pages in the bitmap. */
  lemma ReleaseTwo(g: Geometry, m: Mem, p: nat, q: nat)
    requires Consistent(g, m) && FreshPage(m, p) && FreshPage(m, q) && p != q
    ensures
      var meta := Unmark(Unmark(m.meta, p), q);
      && Consistent(g, m.(meta := meta))
      && AllocatedSet(meta) == AllocatedSet(m.meta) - {p, q}
      && meta.total == m.meta.total && meta.generation == m.meta.generation
  {
    hide Unmark, Referenced;
    var m1 := m.(meta := Unmark(m.meta, p));
    UnmarkConsistent(g, m, p);
    UnmarkFrees(m.meta, p);
    SameDirectory(m, m1);
    InAllocatedSet(m.meta, q);
    InAllocatedSet(m1.meta, q);
    UnmarkConsistent(g, m1, q);
    UnmarkFrees(m1.meta, q);
    hide Consistent, Exact, Allocated, AllocatedSet;
  }

  /** A page the written durable directory does not refer to is not referred to once the block
      has landed, which may drop more entries. */
  lemma FreshLands(g: Geometry, s: Sys, b: nat, slot: nat, e: DirEntry, x: nat)
    requires s.mem.blocks == s.dur.blocks && DirsLag(s.mem.dirs, s.dur.dirs)
    requires HasEntry(s.mem, b, slot) && HasEntry(s.dur, b, slot) && b < |s.mem.blocks|
    requires FreshPage(Rewritten(Held(s), b, slot, e), x)
    ensures FreshPage(Published(s.(mem := Rewritten(s.mem, b, slot, e)), b).(meta := s.mem.meta), x)
  {
    hide DirsLag, Referenced, Allocated;
    var m := Rewritten(s.mem, b, slot, e);
    var f := Rewritten(Held(s), b, slot, e);
    SetEntryLags(s.mem.dirs, s.dur.dirs, b, slot, e);
    var n := f.(dirs := Landed(s.(mem := m), b));
    LagReferenced(n, f);
    FlipReferenced(n, b);
    SameDirectory(n.(blocks := FlipBlock(n.blocks, b)), Published(s.(mem := m), b).(meta := s.mem.meta));
  }

  /** The entry of an id in use, in memory and on disk. */
  lemma SharedEntry(g: Geometry, s: Sys, b: nat, slot: nat, a: Abs)
    requires Steady(g, s, a) && HasEntry(s.mem, b, slot) && s.mem.dirs[b].entries[slot].inUse
    ensures HasEntry(s.dur, b, slot) && s.dur.dirs[b].entries[slot] == s.mem.dirs[b].entries[slot]
    ensures s.mem.dirs[b].entries[slot].activeSlot <= 1 && b < |s.mem.blocks| && slot < Epp(g)
  {
    hide Steady, Consistent, DirsLag;
    SteadyLag(g, s, a);
    LagHasEntry(s.mem, s.dur, b, slot);
    SlotBound(g, s.mem, b, slot);
  }

  lemma DropEntryChange(g: Geometry, s: Sys, b: nat, slot: nat, a: Abs)
    requires Steady(g, s, a) && HasEntry(s.mem, b, slot) && s.mem.dirs[b].entries[slot].inUse
    ensures b < |s.mem.blocks| == |s.mem.dirs|
    ensures
      var e := s.mem.dirs[b].entries[slot];
      var m := Rewritten(s.mem, b, slot, e.(inUse := false));
      var next := Published(s.(mem := m), b);
      && DirChange(g, s, m, b)
      && DirMoves(g, s.dur, next, IdAt(g, b, slot), e.(inUse := false))
      && FreshPage(next.(meta := s.mem.meta), e.pageA) && FreshPage(next.(meta := s.mem.meta), e.pageB)
      && e.pageA != e.pageB
  {
    hide Steady, Consistent, DirsLag, DirChange, DirMoves, FreshPage, Owned, Published;
    SharedEntry(g, s, b, slot, a);
    SteadyLag(g, s, a);
    var e := s.mem.dirs[b].entries[slot];
    DropEntryConsistent(g, s.dur, b, slot);
    DropEntryConsistent(g, Held(s), b, slot);
    SetEntryChange(g, s, a, b, slot, e.(inUse := false));
    OwnedOf(g, Held(s));
    DroppedPagesFresh(Held(s), b, slot);
    FreshLands(g, s, b, slot, e.(inUse := false), e.pageA);
    FreshLands(g, s, b, slot, e.(inUse := false), e.pageB);
  }

  /** The directory half of `free_protected`: the entry is gone, its pages still allocated. */
  lemma DropEntrySafe(g: Geometry, s: Sys, b: nat, slot: nat, a: Abs)
    requires Ready(g, s, a) && HasEntry(s.mem, b, slot) && s.mem.dirs[b].entries[slot].inUse
    requires b < |s.mem.blocks| && TraceOk(g, s.trace, a, a)
    ensures
      var e := s.mem.dirs[b].entries[slot];
      var s' := CommitDir(g, s.(mem := Rewritten(s.mem, b, slot, e.(inUse := false))), b).0;
      var a' := After(g, s'.dur, a, IdAt(g, b, slot), None);
      && Ready(g, s', a') && TraceOk(g, s'.trace, a, a')
      && FreshPage(Held(s'), e.pageA) && FreshPage(Held(s'), e.pageB) && e.pageA != e.pageB
      && s'.mem.meta == s.mem.meta
  {
    hide *;
    EntryInRange(s.mem, b, slot);
    var e := s.mem.dirs[b].entries[slot];
    var e' := e.(inUse := false);
    var m, id := Rewritten(s.mem, b, slot, e'), IdAt(g, b, slot);
    ReadySteady(g, s, a);
    DropEntryChange(g, s, b, slot, a);
    ChangeInRange(g, s, m, b);
    DirCommitReady(g, s, m, b, id, e', a, None);
    HeldIs(CommitDir(g, s.(mem := m), b).0, Published(s.(mem := m), b), s.mem.meta);
  }

  lemma HeldIs(s: Sys, m: Mem, meta: Meta)
    requires s.dur == m && s.mem.meta == meta
    ensures Held(s) == m.(meta := meta)
  {
  }

  /** The bitmap half of `free_protected`. */
  lemma ReleaseSafe(g: Geometry, s: Sys, p: nat, q: nat, a: Abs, x: Abs, y: Abs)
    requires Ready(g, s, a) && FreshPage(Held(s), p) && FreshPage(Held(s), q) && p != q
    requires s.mem.meta.generation + 1 < U64_LIMIT
    requires TraceOk(g, s.trace, x, y) && (a == x || a == y)
    ensures
      var (s', r) := Commit(g, WithMeta(s, Unmark(Unmark(s.mem.meta, p), q)));
      && r.Ok? && Ready(g, s', a) && TraceOk(g, s'.trace, x, y)
      && s'.dur.dirs == s.dur.dirs
  {
    hide Steady, TraceOk, Commit, Unmark, FreshPage, Consistent;
    SteadyMeta(g, s, a);
    ReleaseTwo(g, Held(s), p, q);
    var t := WithMeta(s, Unmark(Unmark(s.mem.meta, p), q));
    RemarkSteady(g, s, t.mem.meta, a);
    CommitSteady(g, t, a, x, y);
    CommitFrame(g, t);
  }

  lemma AfterByDirs(g: Geometry, m: Mem, m': Mem, a: Abs, id: nat, v: Option<Option<Page>>)
    requires m.dirs == m'.dirs
    ensures After(g, m, a, id, v) == After(g, m', a, id, v)
  {
    hide EntryOf;
    forall k: nat
      ensures EntryOf(g, m, k) == EntryOf(g, m', k)
    {
      EntryByDirs(g, m, m', k);
    }
  }

  lemma FreeInUseSafe(g: Geometry, s: Sys, id: nat, a: Abs)
    requires Ready(g, s, a) && s.mem.meta.generation + 1 < U64_LIMIT && TraceOk(g, s.trace, a, a)
    requires |s.mem.blocks| == |s.mem.dirs| && InUse(g, s.mem, id)
    ensures
      var (s', r) := FreeProtected(g, s, id);
      var a' := After(g, s'.dur, a, id, None);
      r.Ok? && Ready(g, s', a') && TraceOk(g, s'.trace, a, a')
  {
    hide *;
    ReadyMapped(g, s, a);
    InUseHasEntry(g, s.mem, id);
    var b, slot := BlockOf(g, id), SlotOf(g, id);
    var e := s.mem.dirs[b].entries[slot];
    SlotOfId(g, id);
    DropEntrySafe(g, s, b, slot, a);
    FreeProtectedSteps(g, s, id);
    var s1 := CommitDir(g, s.(mem := Rewritten(s.mem, b, slot, e.(inUse := false))), b).0;
    var a' := After(g, s1.dur, a, id, None);
    ReleaseSafe(g, s1, e.pageA, e.pageB, a', a, a');
    AfterByDirs(g, s1.dur, FreeProtected(g, s, id).0.dur, a, id, None);
  }

  lemma ReadyMapped(g: Geometry, s: Sys, a: Abs)
    requires Ready(g, s, a)
    ensures Steady(g, s, a) && s.mapped
  {
  }

  lemma SteadyReady(g: Geometry, s: Sys, a: Abs)
    requires Steady(g, s, a) && s.mapped
    ensures Ready(g, s, a)
  {
  }

  lemma DropLags(dirs: seq<DirPage>, durable: seq<DirPage>, b: nat, slot: nat)
    requires DirsLag(dirs, durable) && b < |dirs| && slot < |dirs[b].entries|
    ensures DirsLag(SetEntry(dirs, b, slot, dirs[b].entries[slot].(inUse := false)), durable)
  {
    var dirs' := SetEntry(dirs, b, slot, dirs[b].entries[slot].(inUse := false));
    assert PageLags(dirs[b], durable[b]);
    assert EntryLags(dirs[b].entries[slot], durable[b].entries[slot]);
    forall c | 0 <= c < |dirs|
      ensures PageLags(dirs'[c], durable[c])
    {
      assert PageLags(dirs[c], durable[c]);
    }
  }

  /** Freed in memory only: the commit of the directory block finds no mapping. */
  lemma DropPending(g: Geometry, s: Sys, b: nat, slot: nat, a: Abs)
    requires Steady(g, s, a) && HasEntry(s.mem, b, slot)
    ensures Steady(g, s.(mem := Rewritten(s.mem, b, slot, s.mem.dirs[b].entries[slot].(inUse := false))), a)
  {
    hide Survives, Sound, Sized, Consistent, DirsLag;
    DropLags(s.mem.dirs, s.dur.dirs, b, slot);
  }

  lemma FreeUnmapped(g: Geometry, s: Sys, id: nat, a: Abs)
    requires Steady(g, s, a) && !s.mapped && |s.mem.blocks| == |s.mem.dirs| && InUse(g, s.mem, id)
    ensures
      var (s', r) := FreeProtected(g, s, id);
      r == Err(Unavailable) && Steady(g, s', a) && s'.trace == s.trace
  {
    hide Steady, FreeProtected, Rewritten, BlockOf, SlotOf;
    InUseHasEntry(g, s.mem, id);
    FreeProtectedSteps(g, s, id);
    DropPending(g, s, BlockOf(g, id), SlotOf(g, id), a);
  }

  /** What `free_protected` leaves durable. */
  ghost function Surviving(g: Geometry, s: Sys, id: nat, s': Sys, a: Abs): Abs {
    if InUse(g, s.mem, id) && s.mapped then After(g, s'.dur, a, id, None) else a
  }

  lemma FreeProtectedSafe(g: Geometry, s: Sys, id: nat, a: Abs)
    requires Steady(g, s, a) && s.mem.meta.generation + 1 < U64_LIMIT && TraceOk(g, s.trace, a, a)
    requires |s.mem.blocks| == |s.mem.dirs|
    ensures
      var (s', r) := FreeProtected(g, s, id);
      var a' := Surviving(g, s, id, s', a);
      && Steady(g, s', a') && TraceOk(g, s'.trace, a, a') && s'.mapped == s.mapped
      && (r.Ok? <==> InUse(g, s.mem, id) && s.mapped)
      && (r == Err(Unavailable) <==> InUse(g, s.mem, id) && !s.mapped)
      && (!InUse(g, s.mem, id) ==> s' == s)
  {
    hide Steady, TraceOk, FreeProtected, InUse, After;
    if !InUse(g, s.mem, id) {
      FreeNotInUse(g, s, id);
    } else {
      FreedEntries(g, s, id);
      if s.mapped {
        FreeInUseSafe(g, s, id, a);
      } else {
        FreeUnmapped(g, s, id, a);
      }
    }
  }

  /** Whatever memory shows in use is among the durable contents. */
  lemma ShownInContents(g: Geometry, s: Sys, a: Abs, id: nat)
    requires Steady(g, s, a)
    ensures |s.mem.blocks| == |s.mem.dirs|
    ensures InUse(g, s.mem, id) ==> id in a && InUse(g, s.dur, id) && EntryOf(g, s.dur, id) == EntryOf(g, s.mem, id)
  {
    hide EntryOf, Consistent, Sound, Sized, DirsLag;
    SteadyLag(g, s, a);
    if InUse(g, s.mem, id) {
      LagInUse(g, s.mem, s.dur, id);
    }
  }

  // ── Committing a protected write ───────────────────────────────────────────

  lemma FlushAlone(d: Disk, i: nat)
    requires Settled(d) && 0 < i < |d.mapped|
    ensures
      var d' := Flush(d, i);
      && Settled(d') && SameExcept(d, d', i) && d'.durable[0] == d.durable[0]
      && |d'.mapped| == |d.mapped| && |d'.durable| == |d.durable| && d'.mapped == d.mapped
      && i < |d'.durable| && d'.durable[i] == d.mapped[i] && i !in d'.dirty && MappedPage(d', i) == d.mapped[i]
  {
  }

  lemma FlushSafe(g: Geometry, s: Sys, i: nat, a: Abs)
    requires Steady(g, s, a) && Untouchable(g, s.dur, i) && i < |s.disk.mapped| && TraceOk(g, s.trace, a, a)
    ensures
      var s' := Step(s, Flush(s.disk, i));
      Steady(g, s', a) && TraceOk(g, s'.trace, a, a)
  {
    hide Steady, TraceOk, Untouchable, Settled, SameExcept, Sized, Flush;
    SteadyParts(g, s, a);
    UntouchableNonzero(g, s.dur, i);
    FlushAlone(s.disk, i);
    FlushSized(g, s.disk, i);
    SteppedSteady(g, s, Flush(s.disk, i), i, a, a, a);
  }

  /** The flushed page stays put while the directory page is written. */
  lemma OtherPageHolds(d: Disk, i: nat, page: Page, p: nat, v: Page, e: DirEntry, crc: seq<byte> -> u32)
    requires p != i && p < |d.durable| && p !in d.dirty && d.durable[p] == v
    requires ActivePhys(e) == p && e.checksum == crc(v)
    ensures CopyHolds(Flush(Store(d, i, page), i), e, v, crc)
  {
  }

  lemma FlippedEntry(e: DirEntry, checksum: u32)
    requires e.activeSlot <= 1
    ensures ActivePhys(Flipped(e, checksum)) == InactivePhys(e)
    ensures Flipped(e, checksum).checksum == checksum && Flipped(e, checksum).inUse == e.inUse
  {
  }

  lemma FlipEntryChange(g: Geometry, s: Sys, b: nat, slot: nat, checksum: u32, a: Abs)
    requires Steady(g, s, a) && HasEntry(s.mem, b, slot) && s.mem.dirs[b].entries[slot].inUse
    requires s.mem.dirs[b].entries[slot].generation + 1 < U64_LIMIT
    ensures b < |s.mem.blocks| == |s.mem.dirs|
    ensures
      var e := s.mem.dirs[b].entries[slot];
      var m := Rewritten(s.mem, b, slot, Flipped(e, checksum));
      && DirChange(g, s, m, b)
      && DirMoves(g, s.dur, Published(s.(mem := m), b), IdAt(g, b, slot), Flipped(e, checksum))
      && e.activeSlot <= 1 && InactivePhys(e) != s.mem.blocks[b].Inactive()
  {
    hide Steady, Consistent, DirsLag, DirChange, DirMoves, Owned, Published, Flipped;
    SharedEntry(g, s, b, slot, a);
    SteadyLag(g, s, a);
    var e := s.mem.dirs[b].entries[slot];
    FlipEntryConsistent(g, s.dur, b, slot, checksum);
    FlipEntryConsistent(g, Held(s), b, slot, checksum);
    SetEntryChange(g, s, a, b, slot, Flipped(e, checksum));
    OwnedOf(g, s.mem);
    BlocksAndEntriesDistinct(s.mem, b, b, slot);
    assert InactivePhys(e) in EntryBag(EntryAt(s.mem, b, slot));
    assert s.mem.blocks[b].Inactive() in RefBag(s.mem.blocks[b]);
  }

  /** After the flush: committing the directory makes the flushed bytes the page's contents. */
  lemma FlipSafe(g: Geometry, s: Sys, b: nat, slot: nat, a: Abs, v: Page)
    requires Ready(g, s, a) && HasEntry(s.mem, b, slot) && s.mem.dirs[b].entries[slot].inUse
    requires s.mem.dirs[b].entries[slot].generation + 1 < U64_LIMIT
    requires
      var p := InactivePhys(s.mem.dirs[b].entries[slot]);
      p < |s.disk.durable| && p !in s.disk.dirty && s.disk.durable[p] == v
    requires b < |s.mem.blocks| && TraceOk(g, s.trace, a, a)
    ensures
      var e := s.mem.dirs[b].entries[slot];
      var s' := CommitDir(g, s.(mem := Rewritten(s.mem, b, slot, Flipped(e, g.crc(v)))), b).0;
      var a' := After(g, s'.dur, a, IdAt(g, b, slot), Some(Some(v)));
      Ready(g, s', a') && TraceOk(g, s'.trace, a, a')
  {
    hide *;
    EntryInRange(s.mem, b, slot);
    var e := s.mem.dirs[b].entries[slot];
    var e' := Flipped(e, g.crc(v));
    var m := Rewritten(s.mem, b, slot, e');
    ReadySteady(g, s, a);
    FlipEntryChange(g, s, b, slot, g.crc(v), a);
    FlippedEntry(e, g.crc(v));
    ChangeInRange(g, s, m, b);
    var i := m.blocks[b].Inactive();
    OtherPageHolds(s.disk, i, DirBytes(g, m.dirs[b]), InactivePhys(e), v, e', g.crc);
    DirCommitReady(g, s, m, b, IdAt(g, b, slot), e', a, Some(Some(v)));
  }

  /** `ProtectedPageWriter::commit`: the bytes staged in the inactive copy become the page's
      contents, and every crash on the way finds the old contents or those bytes. */
  lemma CommitWriteSafe(g: Geometry, s: Sys, id: nat, a: Abs)
    requires Ready(g, s, a) && TraceOk(g, s.trace, a, a) && |s.mem.blocks| == |s.mem.dirs|
    requires InUse(g, s.mem, id) && EntryOf(g, s.mem, id).generation + 1 < U64_LIMIT
    ensures
      var (s', r) := CommitWrite(g, s, id);
      var staged := MappedPage(s.disk, InactivePhys(EntryOf(g, s.mem, id)));
      var a' := After(g, s'.dur, a, id, Some(Some(staged)));
      r.Ok? && Ready(g, s', a') && TraceOk(g, s'.trace, a, a')
  {
    hide *;
    ReadyMapped(g, s, a);
    InUseHasEntry(g, s.mem, id);
    var b, slot := BlockOf(g, id), SlotOf(g, id);
    var p := InactivePhys(s.mem.dirs[b].entries[slot]);
    SteadyParts(g, s, a);
    CopyMayBeWritten(g, s, id, a);
    SharedEntry(g, s, b, slot, a);
    SlotOfId(g, id);
    FlushSafe(g, s, p, a);
    FlushAlone(s.disk, p);
    var s1 := Step(s, Flush(s.disk, p));
    StepFrame(s, Flush(s.disk, p));
    SteppedReady(g, s, Flush(s.disk, p), a);
    PageAt(s.disk, p);
    FlipSafe(g, s1, b, slot, a, s.disk.mapped[p]);
    CommitWriteSteps(g, s, id);
  }

  lemma SteppedReady(g: Geometry, s: Sys, d: Disk, a: Abs)
    requires Steady(g, Step(s, d), a) && s.mapped
    ensures Ready(g, Step(s, d), a)
  {
  }

  lemma PageAt(d: Disk, i: nat)
    requires i < |d.mapped|
    ensures MappedPage(d, i) == d.mapped[i]
  {
  }

  // ── A whole protected write ────────────────────────────────────────────────

  lemma StagedPage(g: Geometry, s: Sys, id: nat, page: Page)
    requires InUse(g, s.mem, id) && s.mapped
    requires InactivePhys(EntryOf(g, s.mem, id)) < |s.disk.mapped|
    ensures
      var s1 := StageWrite(g, s, id, page).0;
      s1.mem == s.mem && MappedPage(s1.disk, InactivePhys(EntryOf(g, s.mem, id))) == page
  {
    hide EntryOf, InactivePhys;
  }

  lemma WriteProtectedCases(g: Geometry, s: Sys, id: nat, page: Page)
    requires |s.mem.blocks| == |s.mem.dirs|
    ensures
      var (s1, r) := StageWrite(g, s, id, page);
      && s1.mem == s.mem && s1.mapped == s.mapped
      && (InUse(g, s.mem, id) && s.mapped ==> WriteProtected(g, s, id, page) == CommitWrite(g, s1, id))
      && (!(InUse(g, s.mem, id) && s.mapped) ==>
            WriteProtected(g, s, id, page).0 == s && WriteProtected(g, s, id, page).1.Err?)
  {
    hide CommitWrite, EntryOf;
  }

  /** What a protected write leaves durable. */
  ghost function Rewriting(g: Geometry, s: Sys, id: nat, page: Page, s': Sys, a: Abs): Abs {
    if InUse(g, s.mem, id) && s.mapped then After(g, s'.dur, a, id, Some(Some(page))) else a
  }

  /** From `get_mut` to the end of `commit`: a crash anywhere on the way finds the old
      contents or the complete staged page. */
  lemma WriteProtectedSafe(g: Geometry, s: Sys, id: nat, page: Page, a: Abs)
    requires Steady(g, s, a) && TraceOk(g, s.trace, a, a) && |s.mem.blocks| == |s.mem.dirs|
    requires |page| == g.pageSize && EntryOf(g, s.mem, id).generation + 1 < U64_LIMIT
    ensures
      var (s', r) := WriteProtected(g, s, id, page);
      var a' := Rewriting(g, s, id, page, s', a);
      && Steady(g, s', a') && TraceOk(g, s'.trace, a, a') && s'.mapped == s.mapped
      && (r.Ok? <==> InUse(g, s.mem, id) && s.mapped) && (r.Err? ==> s' == s)
  {
    hide Steady, TraceOk, CommitWrite, StageWrite, WriteProtected, EntryOf, After, InactivePhys;
    WriteProtectedCases(g, s, id, page);
    if InUse(g, s.mem, id) && s.mapped {
      StageWriteSafe(g, s, id, page, a);
      CopyMayBeWritten(g, s, id, a);
      StagedPage(g, s, id, page);
      var s1 := StageWrite(g, s, id, page).0;
      SteadyReady(g, s1, a);
      CommitWriteSafe(g, s1, id, a);
      WrittenPageEntries(g, s, id, page);
    }
  }

  // ── Allocating a protected page ────────────────────────────────────────────

  /** Raw allocations followed by the bitmap commit: the pages are taken, durably if the file
      is mapped by then. */
  lemma RawsCommitted(g: Geometry, s: Sys, env: Env, n: nat, a: Abs)
    requires Steady(g, s, a) && Capacity(g, s.mem.meta, n) && s.mem.meta.generation + 1 < U64_LIMIT
    requires TraceOk(g, s.trace, a, a)
    ensures
      var (s1, ids, r) := AllocRaws(g, s, env, n);
      && Steady(g, s1, a) && TraceOk(g, s1.trace, a, a)
      && (r.Ok? ==>
            var s2 := Commit(g, s1).0;
            && Steady(g, s2, a) && TraceOk(g, s2.trace, a, a) && s2.mapped == s1.mapped
            && s2.mem.blocks == s.mem.blocks && s2.mem.dirs == s.mem.dirs
            && (s1.mapped ==> s2.dur == Held(s).(meta := s2.mem.meta, active := s2.mem.active))
            && TookPages(s.mem.meta, s2.mem.meta, ids))
  {
    hide Steady, TraceOk, Capacity, TookPages, AllocRaws, Commit;
    RawsSafe(g, s, env, n, a, a, a);
    RawsKeepDirs(g, s, env, n);
    RawsGeneration(g, s, env, n);
    var (s1, ids, r) := AllocRaws(g, s, env, n);
    if r.Ok? {
      CommitSteady(g, s1, a, a, a);
      CommitFrame(g, s1);
      TookThenBumped(s.mem.meta, s1.mem.meta, ids);
    }
  }

  lemma {:induction false} RawsGeneration(g: Geometry, s: Sys, env: Env, n: nat)
    ensures AllocRaws(g, s, env, n).0.mem.meta.generation == s.mem.meta.generation
    decreases n
  {
    hide AllocRaw;
    if n > 0 {
      RawGeneration(g, s, env);
      var s1 := AllocRaw(g, s, env).0;
      RawsGeneration(g, s1, env, n - 1);
    }
  }

  lemma TookThenBumped(m: Meta, m': Meta, ids: seq<nat>)
    requires TookPages(m, m', ids)
    ensures TookPages(m, NextGeneration(m'), ids)
  {
    assert AllocatedSet(NextGeneration(m')) == AllocatedSet(m');
  }

  /** Pages just taken are referenced by nothing, in memory or on disk. */
  lemma TakenPages(g: Geometry, s: Sys, s2: Sys, ids: seq<nat>, a: Abs)
    requires Steady(g, s, a) && TookPages(s.mem.meta, s2.mem.meta, ids)
    requires s2.dur == Held(s).(meta := s2.mem.meta, active := s2.mem.active)
    ensures Distinct(ids) && forall x :: x in ids ==> FreshPage(s2.dur, x)
  {
    hide Steady, FreshPage, Consistent, Owned, AllocatedSet;
    SteadyMeta(g, s, a);
    OwnedOf(g, Held(s));
    forall x | x in ids
      ensures FreshPage(s2.dur, x)
    {
      TakenAreFresh(Held(s), s2.dur, ids, x);
    }
  }

  lemma NewEntryFits(g: Geometry, m: Mem, d: Disk, p: nat, q: nat)
    requires FreshPage(m, p) && FreshPage(m, q) && Consistent(g, m)
    ensures EntryFits(NewEntry(g, d, p, q))
  {
    hide Exact, Owned, DirShape, Referenced, Doubled;
  }

  lemma FreshDropped(g: Geometry, m: Mem, b: nat, slot: nat, x: nat)
    requires HasEntry(m, b, slot) && FreshPage(m, x)
    ensures FreshPage(Rewritten(m, b, slot, m.dirs[b].entries[slot].(inUse := false)), x)
  {
    hide Referenced, Allocated;
    var e := m.dirs[b].entries[slot];
    var m' := Rewritten(m, b, slot, e.(inUse := false));
    SetEntryReferenced(m, b, slot, e.(inUse := false));
    assert (Referenced(m') + EntryBag(e))[x] == Referenced(m)[x];
  }

  /** The entry at a slot that memory shows free may still be in use on disk: it goes first. */
  lemma TakeOverConsistent(g: Geometry, m: Mem, b: nat, slot: nat, e: DirEntry)
    requires Consistent(g, m) && HasEntry(m, b, slot)
    requires e.inUse && EntryFits(e) && e.activeSlot == e.generation % 2 && e.pageA != e.pageB
    requires FreshPage(m, e.pageA) && FreshPage(m, e.pageB)
    ensures Consistent(g, Rewritten(m, b, slot, e))
  {
    hide Consistent, FreshPage, EntryFits;
    var e0 := m.dirs[b].entries[slot].(inUse := false);
    var m' := Rewritten(m, b, slot, e0);
    DropEntryConsistent(g, m, b, slot);
    FreshDropped(g, m, b, slot, e.pageA);
    FreshDropped(g, m, b, slot, e.pageB);
    TakeEntryConsistent(g, m', b, slot, e);
    RewrittenTwice(m, b, slot, e0, e);
  }

  lemma RewrittenTwice(m: Mem, b: nat, slot: nat, e0: DirEntry, e: DirEntry)
    requires HasEntry(m, b, slot)
    ensures
      var m' := Rewritten(m, b, slot, e0);
      HasEntry(m', b, slot) && Rewritten(m', b, slot, e) == Rewritten(m, b, slot, e)
  {
    var es := m.dirs[b].entries;
    assert es[slot := e0][slot := e] == es[slot := e];
    var d := m.dirs[b].(entries := es[slot := e]);
    assert m.dirs[b := m.dirs[b].(entries := es[slot := e0])][b := d] == m.dirs[b := d];
  }

  /** Taking a free slot with two fresh pages is a directory change. */
  lemma TakeEntryChange(g: Geometry, s: Sys, b: nat, slot: nat, p: nat, q: nat, a: Abs)
    requires Steady(g, s, a) && s.dur.meta == s.mem.meta && HasEntry(s.mem, b, slot)
    requires FreshPage(s.dur, p) && FreshPage(s.dur, q) && p != q
    ensures
      var e := NewEntry(g, s.disk, p, q);
      var m := Rewritten(s.mem, b, slot, e);
      && slot < Epp(g) && b < |m.blocks| == |m.dirs| && e.inUse && DirChange(g, s, m, b)
      && DirMoves(g, s.dur, Published(s.(mem := m), b), IdAt(g, b, slot), e)
  {
    hide Steady, Consistent, DirsLag, DirChange, DirMoves, FreshPage, Published, NewEntry, EntryFits, Epp;
    var e := NewEntry(g, s.disk, p, q);
    SteadyLag(g, s, a);
    LagHasEntry(s.mem, s.dur, b, slot);
    NewEntryInUse(g, s.disk, p, q);
    NewEntryFits(g, s.dur, s.disk, p, q);
    TakeOverConsistent(g, s.dur, b, slot, e);
    SameHeld(s);
    SetEntryChange(g, s, a, b, slot, e);
  }

  lemma SameHeld(s: Sys)
    requires s.dur.meta == s.mem.meta
    ensures Held(s) == s.dur
  {
  }

  /** The directory commit of a newly taken entry: one more id, nothing committed to it yet. */
  lemma TakenSafe(g: Geometry, s: Sys, m: Mem, b: nat, id: nat, e: DirEntry, a: Abs)
    requires Ready(g, s, a) && DirChange(g, s, m, b) && b < |m.blocks| && b < |m.dirs|
    requires DirMoves(g, s.dur, Published(s.(mem := m), b), id, e)
    requires e.inUse && TraceOk(g, s.trace, a, a)
    ensures
      var s' := CommitDir(g, s.(mem := m), b).0;
      var a' := After(g, s'.dur, a, id, Some(None));
      Steady(g, s', a') && TraceOk(g, s'.trace, a, a')
  {
    hide *;
    DirCommitReady(g, s, m, b, id, e, a, Some(None));
    ReadySteady(g, CommitDir(g, s.(mem := m), b).0, After(g, CommitDir(g, s.(mem := m), b).0.dur, a, id, Some(None)));
  }

  /** What `alloc_protected` owes: a failure leaves the contents alone, a success adds the id. */
  ghost predicate Provided(g: Geometry, r: Result<nat>, s': Sys, a: Abs) {
    match r
    case Err(_) => Steady(g, s', a) && TraceOk(g, s'.trace, a, a)
    case Ok(id) =>
      var a' := After(g, s'.dur, a, id, Some(None));
      Steady(g, s', a') && TraceOk(g, s'.trace, a, a')
  }

  lemma AllocInBlockSafe(g: Geometry, s: Sys, env: Env, b: nat, a: Abs)
    requires Steady(g, s, a) && Capacity(g, s.mem.meta, 2) && s.mem.meta.generation + 1 < U64_LIMIT
    requires TraceOk(g, s.trace, a, a)
    requires |s.mem.blocks| == |s.mem.dirs| && b < |s.mem.dirs|
    requires FirstFreeEntry(s.mem.dirs[b].entries) < |s.mem.dirs[b].entries|
    ensures var (s', r) := AllocInBlock(g, s, env, b); Provided(g, r, s', a)
  {
    hide Steady, TraceOk, Capacity, AllocInBlock, AllocRaws, Commit, CommitDir, Rewritten, NewEntry, IdAt, FirstFreeEntry,
         TookPages, DirChange, DirMoves, Published, After, Epp;
    var slot := FirstFreeEntry(s.mem.dirs[b].entries);
    var (s1, ids, r) := AllocRaws(g, s, env, 2);
    RawsCommitted(g, s, env, 2, a);
    AllocInBlockSteps(g, s, env, b);
    FreeEntryUnused(s.mem, b);
    if r.Ok? && s1.mapped {
      var s2 := Commit(g, s1).0;
      var e := NewEntry(g, s2.disk, ids[0], ids[1]);
      InBlockTaken(g, s, s2, ids, b, slot, a);
      SteadyReady(g, s2, a);
      TakenSafe(g, s2, Rewritten(s2.mem, b, slot, e), b, IdAt(g, b, slot), e, a);
    }
  }

  lemma InBlockTaken(g: Geometry, s: Sys, s2: Sys, ids: seq<nat>, b: nat, slot: nat, a: Abs)
    requires Steady(g, s, a) && Steady(g, s2, a)
    requires s2.dur == Held(s).(meta := s2.mem.meta, active := s2.mem.active)
    requires |ids| == 2 && TookPages(s.mem.meta, s2.mem.meta, ids) && HasEntry(s2.mem, b, slot)
    ensures
      var e := NewEntry(g, s2.disk, ids[0], ids[1]);
      var m := Rewritten(s2.mem, b, slot, e);
      && e.inUse && b < |m.blocks| == |m.dirs| && DirChange(g, s2, m, b)
      && DirMoves(g, s2.dur, Published(s2.(mem := m), b), IdAt(g, b, slot), e)
  {
    hide Steady, DirChange, DirMoves, FreshPage, Published, Epp, AllocatedSet;
    assert ids[0] in ids && ids[1] in ids;
    TakenPages(g, s, s2, ids, a);
    TakeEntryChange(g, s2, b, slot, ids[0], ids[1], a);
  }

  lemma AllocNewBlockSafe(g: Geometry, s: Sys, env: Env, a: Abs)
    requires Steady(g, s, a) && Capacity(g, s.mem.meta, 4) && s.mem.meta.generation + 1 < U64_LIMIT
    requires TraceOk(g, s.trace, a, a)
    requires |s.mem.dirs| == |s.mem.blocks| < MaxDirBlocks(g.pageSize)
    ensures var (s', r) := AllocNewBlock(g, s, env); Provided(g, r, s', a)
  {
    hide Steady, TraceOk, Capacity, AllocNewBlock, AllocRaws, Commit, CommitDir, AppendBlock, NewEntry, IdAt,
         TookPages, DirChange, DirMoves, Published, After, Epp, MaxDirBlocks;
    var b := |s.mem.blocks|;
    var (s1, ids, r) := AllocRaws(g, s, env, 4);
    RawsCommitted(g, s, env, 4, a);
    AllocNewBlockSteps(g, s, env);
    if r.Ok? && s1.mapped {
      var s2 := Commit(g, s1).0;
      var e := NewEntry(g, s2.disk, ids[2], ids[3]);
      NewBlockTaken(g, s, s2, ids, a);
      SteadyReady(g, s2, a);
      TakenSafe(g, s2, AppendBlock(g, s2.mem, ids[0], ids[1], e), b, IdAt(g, b, 0), e, a);
    }
  }

  lemma NewBlockTaken(g: Geometry, s: Sys, s2: Sys, ids: seq<nat>, a: Abs)
    requires Steady(g, s, a) && Steady(g, s2, a)
    requires s2.dur == Held(s).(meta := s2.mem.meta, active := s2.mem.active)
    requires |ids| == 4 && TookPages(s.mem.meta, s2.mem.meta, ids)
    requires |s2.mem.blocks| < MaxDirBlocks(g.pageSize)
    ensures
      var b := |s2.mem.blocks|;
      var e := NewEntry(g, s2.disk, ids[2], ids[3]);
      var m := AppendBlock(g, s2.mem, ids[0], ids[1], e);
      && e.inUse && b < |m.blocks| && b < |m.dirs| && DirChange(g, s2, m, b)
      && DirMoves(g, s2.dur, Published(s2.(mem := m), b), IdAt(g, b, 0), e)
  {
    hide Steady, Consistent, DirChange, DirMoves, FreshPage, Published, AppendBlock, AllocatedSet, NewEntry, EntryFits;
    assert ids[0] in ids && ids[1] in ids && ids[2] in ids && ids[3] in ids;
    TakenPages(g, s, s2, ids, a);
    SteadyLag(g, s2, a);
    NewEntryInUse(g, s2.disk, ids[2], ids[3]);
    NewEntryFits(g, s2.dur, s2.disk, ids[2], ids[3]);
    AppendChange(g, s2, ids, a);
  }

  lemma CapacityLess(g: Geometry, m: Meta, n: nat, k: nat)
    requires Capacity(g, m, n) && k <= n
    ensures Capacity(g, m, k)
  {
    GrownMonotone(m.freeCount, m.total, k, n);
  }

  lemma {:induction false} GrownMonotone(free: nat, total: nat, k: nat, n: nat)
    requires total > 0 && k <= n
    ensures GrownTotal(free, total, k) <= GrownTotal(free, total, n)
    decreases if k <= free then 0 else k - free
  {
    if k > free {
      GrownMonotone(free + total, 2 * total, k, n);
    }
  }

  /** `alloc_protected`, with the directory full, with growth failing, without a mapping, or
      successful. */
  lemma AllocProtectedSafe(g: Geometry, s: Sys, env: Env, a: Abs)
    requires Steady(g, s, a) && Capacity(g, s.mem.meta, Needed(g, s.mem)) && s.mem.meta.generation + 1 < U64_LIMIT
    requires TraceOk(g, s.trace, a, a) && |s.mem.blocks| == |s.mem.dirs|
    ensures var (s', r) := AllocProtected(g, s, env); Provided(g, r, s', a)
  {
    hide Steady, TraceOk, Capacity, AllocProtected, AllocInBlock, AllocNewBlock, FirstFreeEntry, After;
    AllocProtectedCases(g, s, env);
    var b := FirstOpenBlock(s.mem.dirs);
    if b < |s.mem.dirs| {
      AllocInBlockSafe(g, s, env, b, a);
    } else if |s.mem.blocks| < MaxDirBlocks(g.pageSize) {
      AllocNewBlockSafe(g, s, env, a);
    }
  }
}
