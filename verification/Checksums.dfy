/** The checksum stored with a protected page is that of its active copy, throughout every
    crash-free run, whether the page was ever committed or not. */
module Checksums {
  import opened Bytes
  import opened Results
  import opened Metadata
  import opened Layout
  import opened Disks
  import opened Recovery
  import opened Sorting
  import opened PagerSpec
  import opened Ownership
  import opened Safety
  import opened DirSafety
  import opened RawAllocation
  import opened DirChanges
  import opened Entries
  import opened Operations
  import opened Bulk
  import opened Runs

  ghost predicate SumOk(g: Geometry, e: DirEntry, d: Disk) {
    ActivePhys(e) < |d.mapped| && e.checksum == g.crc(d.mapped[ActivePhys(e)])
  }

  /** Every in-use entry stores the checksum of its active copy as the process sees it. */
  ghost predicate Sums(g: Geometry, m: Mem, d: Disk) {
    forall id: nat :: InUse(g, m, id) ==> SumOk(g, EntryOf(g, m, id), d)
  }

  /** On pages 1 to n - 1, page i apart, the process sees the same bytes. */
  ghost predicate SeenBelow(d: Disk, d': Disk, n: nat, i: nat) {
    && n <= |d.mapped| && n <= |d'.mapped|
    && forall j: nat :: 0 < j < n && j != i ==> d.mapped[j] == d'.mapped[j]
  }

  lemma SumsChanged(g: Geometry, m: Mem, m': Mem, d: Disk, d': Disk, i: nat, id: nat, e: DirEntry)
    requires Sums(g, m, d) && Owned(m) && OneEntryDiffers(g, m, m', id, e)
    requires SeenBelow(d, d', m.meta.total, i)
    requires forall x: nat :: InUse(g, m, x) ==> ActivePhys(EntryOf(g, m, x)) != i
    requires e.inUse ==> SumOk(g, e, d')
    ensures Sums(g, m', d')
  {
    hide Owned, EntryOf;
    forall x: nat | InUse(g, m', x)
      ensures SumOk(g, EntryOf(g, m', x), d')
    {
      if x != id {
        ActiveCopyOwned(g, m, x);
      }
    }
  }

  lemma SumsKept(g: Geometry, m: Mem, m': Mem, d: Disk, d': Disk, i: nat)
    requires Sums(g, m, d) && Owned(m) && m'.dirs == m.dirs
    requires SeenBelow(d, d', m.meta.total, i)
    requires forall x: nat :: InUse(g, m, x) ==> ActivePhys(EntryOf(g, m, x)) != i
    ensures Sums(g, m', d')
  {
    hide Owned;
    forall x: nat | InUse(g, m', x)
      ensures SumOk(g, EntryOf(g, m', x), d')
    {
      assert EntryOf(g, m', x) == EntryOf(g, m, x);
      ActiveCopyOwned(g, m, x);
    }
  }

  /** Nothing but the disk page i and page 0 has been written. */
  lemma PublishSeen(s: Sys, i: nat, page: Page, page0: Page, next: Mem, n: nat)
    requires n <= |s.disk.mapped|
    ensures SeenBelow(s.disk, Publish(s, i, page, page0, next).disk, n, i)
  {
  }

  lemma CommitSums(g: Geometry, s: Sys, a: Abs)
    requires Steady(g, s, a) && Sums(g, s.mem, s.disk)
    ensures Sums(g, Commit(g, s).0.mem, Commit(g, s).0.disk)
  {
    hide Sums, Consistent, Publish, Steady, SeenBelow, Commit, Untouchable, Owned;
    CommitFrame(g, s);
    SteadyOwned(g, s, a);
    SteadyParts(g, s, a);
    var i := s.mem.active.Other().PageId();
    if s.mapped {
      LowPagesUntouchable(g, s.mem, i);
      CommitSeen(g, s, s.mem.meta.total);
      UntouchedCopies(g, s.mem, i);
      SumsKept(g, s.mem, Commit(g, s).0.mem, s.disk, Commit(g, s).0.disk, i);
    } else {
      UncommittedDisk(g, s);
      SumsByDirs(g, s.mem, Commit(g, s).0.mem, s.disk);
    }
  }

  lemma UncommittedDisk(g: Geometry, s: Sys)
    requires !s.mapped
    ensures Commit(g, s).0.disk == s.disk
  {
  }

  lemma SteadyOwned(g: Geometry, s: Sys, a: Abs)
    requires Steady(g, s, a)
    ensures Owned(s.mem)
  {
    hide Steady, Consistent, Owned;
    SteadyMeta(g, s, a);
    OwnedOf(g, s.mem);
  }

  lemma UntouchedCopies(g: Geometry, m: Mem, i: nat)
    requires Untouchable(g, m, i)
    ensures forall x: nat :: InUse(g, m, x) ==> ActivePhys(EntryOf(g, m, x)) != i
    ensures i != 0
  {
  }

  lemma CommitSeen(g: Geometry, s: Sys, n: nat)
    requires n <= |s.disk.mapped| && s.mapped
    ensures SeenBelow(s.disk, Commit(g, s).0.disk, n, s.mem.active.Other().PageId())
  {
    hide MetaBytes, Page0Bytes, Publish, SeenBelow;
    var meta := NextGeneration(s.mem.meta);
    var target := s.mem.active.Other();
    var next := Mem(meta, target, s.mem.blocks, s.dur.dirs);
    var page0 := Page0Bytes(g, Super(g, target, g.crc(MetaBytes(g, meta))), s.mem.blocks);
    PublishSeen(s, target.PageId(), MetaBytes(g, meta), page0, next, n);
  }

  lemma CommitDirSeen(g: Geometry, s: Sys, b: nat, n: nat)
    requires b < |s.mem.blocks| == |s.mem.dirs| && n <= |s.disk.mapped| && s.mapped
    ensures SeenBelow(s.disk, CommitDir(g, s, b).0.disk, n, s.mem.blocks[b].Inactive())
  {
    hide DirBytes, Page0Bytes, SeenBelow, Publish, Store, Flush;
    var r := s.mem.blocks[b];
    var buf := DirBytes(g, s.mem.dirs[b]);
    var stored := Flush(Store(s.disk, r.Inactive(), buf), r.Inactive());
    var page0 := Page0Bytes(g, Super(g, s.mem.active, g.crc(MappedPage(stored, s.mem.active.PageId()))),
                            FlipBlock(s.mem.blocks, b));
    PublishSeen(s, r.Inactive(), buf, page0, Published(s, b), n);
  }

  /** A page the durable state can spare is no active copy of a page memory shows. */
  lemma SpareCopies(g: Geometry, s: Sys, i: nat, a: Abs)
    requires Steady(g, s, a) && Untouchable(g, s.dur, i)
    ensures i != 0 && forall x: nat :: InUse(g, s.mem, x) ==> ActivePhys(EntryOf(g, s.mem, x)) != i
  {
    hide Steady, EntryOf, Untouchable;
    UntouchedCopies(g, s.dur, i);
    forall x: nat | InUse(g, s.mem, x)
      ensures ActivePhys(EntryOf(g, s.mem, x)) != i
    {
      ShownInContents(g, s, a, x);
    }
  }

  lemma DiffersByDirs(g: Geometry, m: Mem, m': Mem, n': Mem, id: nat, e: DirEntry)
    requires OneEntryDiffers(g, m, m', id, e) && n'.dirs == m'.dirs
    ensures OneEntryDiffers(g, m, n', id, e)
  {
    hide EntryOf;
    forall other: nat
      ensures EntryOf(g, n', other) == EntryOf(g, m', other)
    {
      EntryByDirs(g, n', m', other);
    }
  }

  lemma ChangeSpares(g: Geometry, s: Sys, m: Mem, b: nat)
    requires DirChange(g, s, m, b)
    ensures b < |m.blocks| == |m.dirs| && Untouchable(g, s.dur, m.blocks[b].Inactive())
  {
  }

  /** A committed directory change whose new entry, if any, stores the right checksum. */
  lemma DirCommitSums(g: Geometry, s: Sys, m: Mem, b: nat, id: nat, e: DirEntry, a: Abs)
    requires Ready(g, s, a) && DirChange(g, s, m, b) && OneEntryDiffers(g, s.mem, m, id, e)
    requires Sums(g, s.mem, s.disk)
    requires e.inUse ==> SumOk(g, e, s.disk) && 0 < ActivePhys(e) < s.mem.meta.total
                         && (b < |m.blocks| ==> ActivePhys(e) != m.blocks[b].Inactive())
    ensures b < |m.blocks| == |m.dirs|
    ensures
      var s' := CommitDir(g, s.(mem := m), b).0;
      Sums(g, s'.mem, s'.disk)
  {
    hide Sums, Steady, SeenBelow, Untouchable, CommitDir, OneEntryDiffers, DirChange, Owned, Settled, Sized;
    ChangeSpares(g, s, m, b);
    SteadyOwned(g, s, a);
    SteadyParts(g, s, a);
    var i := m.blocks[b].Inactive();
    var t := s.(mem := m);
    CommitDirResult(g, t, b);
    CommitDirSeen(g, t, b, s.mem.meta.total);
    SpareCopies(g, s, i, a);
    if e.inUse {
      SumSeen(g, e, s.disk, CommitDir(g, t, b).0.disk, s.mem.meta.total, i);
    }
    var m' := CommitDir(g, t, b).0.mem;
    DiffersByDirs(g, s.mem, m, m', id, e);
    SumsChanged(g, s.mem, m', s.disk, CommitDir(g, t, b).0.disk, i, id, e);
  }

  lemma SumSeen(g: Geometry, e: DirEntry, d: Disk, d': Disk, n: nat, i: nat)
    requires SumOk(g, e, d) && SeenBelow(d, d', n, i) && 0 < ActivePhys(e) < n && ActivePhys(e) != i
    ensures SumOk(g, e, d')
  {
  }

  // ── Growth and raw allocation ──────────────────────────────────────────────

  lemma ResizeSeen(g: Geometry, d: Disk, n: nat, k: nat)
    requires k <= n && k <= |d.mapped|
    ensures SeenBelow(d, SetLen(g, d, n), k, 0) && |SetLen(g, d, n).mapped| == n
  {
  }

  lemma SeenTwice(d: Disk, d': Disk, d'': Disk, n: nat)
    requires SeenBelow(d, d', n, 0) && SeenBelow(d', d'', n, 0)
    ensures SeenBelow(d, d'', n, 0)
  {
  }

  lemma SeenItself(d: Disk, n: nat)
    requires n <= |d.mapped|
    ensures SeenBelow(d, d, n, 0)
  {
  }

  lemma RawSeen(g: Geometry, s: Sys, env: Env, k: nat)
    requires k <= s.mem.meta.total <= |s.disk.mapped|
    ensures SeenBelow(s.disk, AllocRaw(g, s, env).0.disk, k, 0)
  {
    hide FreeSlot, Mark, GrowTo, SetLen, SeenBelow;
    var smaller, larger := s.mem.meta.total, s.mem.meta.total * 2;
    SeenItself(s.disk, k);
    ResizeSeen(g, s.disk, larger, k);
    var d1 := SetLen(g, s.disk, larger);
    ResizeSeen(g, d1, smaller, k);
    SeenTwice(s.disk, d1, SetLen(g, d1, smaller), k);
  }

  lemma TookTotal(m: Meta, m': Meta, id: nat)
    requires TookPage(m, m', id)
    ensures m.total <= m'.total
  {
  }

  lemma {:induction false} RawsSeen(g: Geometry, s: Sys, env: Env, n: nat, a: Abs, k: nat)
    requires Steady(g, s, a) && Capacity(g, s.mem.meta, n) && TraceOk(g, s.trace, a, a)
    requires k <= s.mem.meta.total
    ensures SeenBelow(s.disk, AllocRaws(g, s, env, n).0.disk, k, 0)
    decreases n
  {
    hide *;
    RawsUnfold(g, s, env, n);
    SteadyParts(g, s, a);
    if n == 0 {
      SeenItself(s.disk, k);
    } else {
      RawSeen(g, s, env, k);
      RawSafe(g, s, env, n, a, a, a);
      var (s1, r) := AllocRaw(g, s, env);
      if r.Ok? {
        TookTotal(s.mem.meta, s1.mem.meta, r.value);
        RawsSeen(g, s1, env, n - 1, a, k);
        SeenTwice(s.disk, s1.disk, AllocRaws(g, s1, env, n - 1).0.disk, k);
      }
    }
  }

  lemma CopiesNotZero(g: Geometry, m: Mem)
    requires Owned(m)
    ensures forall x: nat :: InUse(g, m, x) ==> ActivePhys(EntryOf(g, m, x)) != 0
  {
    hide Owned, EntryOf;
    forall x: nat | InUse(g, m, x)
      ensures ActivePhys(EntryOf(g, m, x)) != 0
    {
      ActiveCopyOwned(g, m, x);
    }
  }

  lemma RawsSums(g: Geometry, s: Sys, env: Env, n: nat, a: Abs)
    requires Steady(g, s, a) && Capacity(g, s.mem.meta, n) && TraceOk(g, s.trace, a, a)
    requires Sums(g, s.mem, s.disk)
    ensures var s1 := AllocRaws(g, s, env, n).0; Sums(g, s1.mem, s1.disk)
  {
    hide Steady, TraceOk, Capacity, AllocRaws, SeenBelow, Sums, Owned;
    SteadyOwned(g, s, a);
    CopiesNotZero(g, s.mem);
    RawsSeen(g, s, env, n, a, s.mem.meta.total);
    RawsKeepDirs(g, s, env, n);
    SumsKept(g, s.mem, AllocRaws(g, s, env, n).0.mem, s.disk, AllocRaws(g, s, env, n).0.disk, 0);
  }

  lemma SumsByDirs(g: Geometry, m: Mem, m': Mem, d: Disk)
    requires Sums(g, m, d) && m.dirs == m'.dirs
    ensures Sums(g, m', d)
  {
    assert forall x: nat :: EntryOf(g, m', x) == EntryOf(g, m, x);
  }

  // ── Calls ──────────────────────────────────────────────────────────────────

  lemma RawIsRaws(g: Geometry, s: Sys, env: Env)
    ensures
      var (s1, r) := AllocRaw(g, s, env);
      var (s2, ids, q) := AllocRaws(g, s, env, 1);
      s1 == s2 && (r.Ok? <==> q.Ok?)
  {
    hide AllocRaw;
    assert forall t: Sys :: AllocRaws(g, t, env, 0) == (t, [], Ok(()));
  }

  lemma AllocSums(g: Geometry, s: Sys, env: Env, n: nat, a: Abs)
    requires Steady(g, s, a) && Capacity(g, s.mem.meta, n) && TraceOk(g, s.trace, a, a)
    requires Sums(g, s.mem, s.disk)
    ensures
      var (s1, ids, r) := AllocRaws(g, s, env, n);
      && Sums(g, s1.mem, s1.disk)
      && (r.Ok? ==> Sums(g, Commit(g, s1).0.mem, Commit(g, s1).0.disk))
  {
    hide Steady, TraceOk, Capacity, AllocRaws, Commit, Sums, TookPages;
    RawsSums(g, s, env, n, a);
    RawsSafe(g, s, env, n, a, a, a);
    if AllocRaws(g, s, env, n).2.Ok? {
      CommitSums(g, AllocRaws(g, s, env, n).0, a);
    }
  }

  /** The entry of a new page, whose first copy is p. */
  lemma TakenSums(g: Geometry, s: Sys, m: Mem, b: nat, id: nat, p: nat, q: nat, a: Abs)
    requires Steady(g, s, a) && s.mapped && s.dur.meta == s.mem.meta && Sums(g, s.mem, s.disk)
    requires DirChange(g, s, m, b) && b < |m.blocks| && b < |m.dirs|
    requires OneEntryDiffers(g, s.mem, m, id, NewEntry(g, s.disk, p, q))
    requires FreshPage(s.dur, p) && m.blocks[b].Inactive() != p
    ensures
      var s' := CommitDir(g, s.(mem := m), b).0;
      Sums(g, s'.mem, s'.disk)
  {
    hide Steady, Sums, DirChange, OneEntryDiffers, FreshPage, NewEntry, CommitDir;
    SteadyReady(g, s, a);
    SteadyParts(g, s, a);
    FreshUntouchable(g, s.dur, p);
    NewEntrySum(g, s, p, q);
    NewEntryInUse(g, s.disk, p, q);
    FreshPositive(s.dur, p);
    DirCommitSums(g, s, m, b, id, NewEntry(g, s.disk, p, q), a);
  }

  lemma FreshPositive(m: Mem, p: nat)
    requires FreshPage(m, p)
    ensures FIRST_DATA_PAGE <= p < m.meta.total && p !in Referenced(m)
  {
    hide Referenced;
  }

  /** A new entry stores the checksum its first backing page has at that moment. */
  lemma NewEntrySum(g: Geometry, s: Sys, p: nat, q: nat)
    requires p < |s.disk.mapped|
    ensures SumOk(g, NewEntry(g, s.disk, p, q), s.disk)
  {
  }

  lemma BlockInReferenced(m: Mem, b: nat)
    requires b < |m.blocks|
    ensures m.blocks[b].Inactive() in Referenced(m) && m.blocks[b].Active() in Referenced(m)
  {
    BlockReferenced(m, b);
    assert m.blocks[b].Inactive() in RefBag(m.blocks[b]) && m.blocks[b].Active() in RefBag(m.blocks[b]);
  }

  lemma InBlockSums(g: Geometry, s: Sys, env: Env, b: nat, a: Abs)
    requires Steady(g, s, a) && Capacity(g, s.mem.meta, 2) && s.mem.meta.generation + 1 < U64_LIMIT
    requires TraceOk(g, s.trace, a, a) && Sums(g, s.mem, s.disk)
    requires |s.mem.blocks| == |s.mem.dirs| && b < |s.mem.dirs|
    requires FirstFreeEntry(s.mem.dirs[b].entries) < |s.mem.dirs[b].entries|
    ensures var s' := AllocInBlock(g, s, env, b).0; Sums(g, s'.mem, s'.disk)
  {
    hide Steady, TraceOk, Capacity, AllocRaws, Commit, CommitDir, Sums, TookPages, AllocInBlock, Rewritten, NewEntry,
         FirstFreeEntry, Epp, DirChange, DirMoves, OneEntryDiffers, FreshPage, Published;
    var slot := FirstFreeEntry(s.mem.dirs[b].entries);
    AllocSums(g, s, env, 2, a);
    RawsCommitted(g, s, env, 2, a);
    AllocInBlockSteps(g, s, env, b);
    FreeEntryUnused(s.mem, b);
    var (s1, ids, r) := AllocRaws(g, s, env, 2);
    if r.Ok? && s1.mapped {
      var s2 := Commit(g, s1).0;
      InBlockTaken(g, s, s2, ids, b, slot, a);
      SlotTaken(g, s, s2, ids, b, slot, a);
      var m := Rewritten(s2.mem, b, slot, NewEntry(g, s2.disk, ids[0], ids[1]));
      TakenSums(g, s2, m, b, IdAt(g, b, slot), ids[0], ids[1], a);
    }
  }

  lemma SlotTaken(g: Geometry, s: Sys, s2: Sys, ids: seq<nat>, b: nat, slot: nat, a: Abs)
    requires Steady(g, s, a) && Steady(g, s2, a)
    requires s2.dur == Held(s).(meta := s2.mem.meta, active := s2.mem.active)
    requires |ids| == 2 && TookPages(s.mem.meta, s2.mem.meta, ids) && HasEntry(s2.mem, b, slot)
    ensures b < |s2.mem.blocks| && FreshPage(s2.dur, ids[0]) && s2.mem.blocks[b].Inactive() != ids[0]
    ensures
      var e := NewEntry(g, s2.disk, ids[0], ids[1]);
      OneEntryDiffers(g, s2.mem, Rewritten(s2.mem, b, slot, e), IdAt(g, b, slot), e)
  {
    hide Steady, TookPages, FreshPage, Consistent, DirsLag, OneEntryDiffers, Rewritten, NewEntry, Referenced, Epp;
    SteadyLag(g, s2, a);
    SlotBound(g, s2.mem, b, slot);
    TakenPages(g, s, s2, ids, a);
    assert ids[0] in ids;
    FreshPositive(s2.dur, ids[0]);
    BlockInReferenced(s2.dur, b);
    SetDiffers(g, s2.mem, b, slot, NewEntry(g, s2.disk, ids[0], ids[1]));
  }

  lemma NewBlockSums(g: Geometry, s: Sys, env: Env, a: Abs)
    requires Steady(g, s, a) && Capacity(g, s.mem.meta, 4) && s.mem.meta.generation + 1 < U64_LIMIT
    requires TraceOk(g, s.trace, a, a) && Sums(g, s.mem, s.disk)
    requires |s.mem.dirs| == |s.mem.blocks| < MaxDirBlocks(g.pageSize)
    ensures var s' := AllocNewBlock(g, s, env).0; Sums(g, s'.mem, s'.disk)
  {
    hide Steady, TraceOk, Capacity, AllocRaws, Commit, CommitDir, Sums, TookPages, AllocNewBlock, AppendBlock, NewEntry,
         Epp, DirChange, DirMoves, OneEntryDiffers, FreshPage, Published, MaxDirBlocks;
    AllocSums(g, s, env, 4, a);
    RawsCommitted(g, s, env, 4, a);
    AllocNewBlockSteps(g, s, env);
    var (s1, ids, r) := AllocRaws(g, s, env, 4);
    if r.Ok? && s1.mapped {
      var b := |s.mem.blocks|;
      var s2 := Commit(g, s1).0;
      var e := NewEntry(g, s2.disk, ids[2], ids[3]);
      NewBlockTaken(g, s, s2, ids, a);
      TakenPages(g, s, s2, ids, a);
      assert ids[2] in ids && ids[1] != ids[2] by {
        DistinctAt(ids, 1, 2);
      }
      AppendedInactive(g, s2.mem, ids[0], ids[1], e);
      AppendDiffers(g, s2.mem, ids[0], ids[1], e);
      TakenSums(g, s2, AppendBlock(g, s2.mem, ids[0], ids[1], e), b, IdAt(g, b, 0), ids[2], ids[3], a);
    }
  }

  lemma DistinctAt(ids: seq<nat>, i: nat, j: nat)
    requires Distinct(ids) && i < j < |ids|
    ensures ids[i] != ids[j]
  {
  }

  lemma AppendedInactive(g: Geometry, m: Mem, p: nat, q: nat, e: DirEntry)
    ensures
      var m' := AppendBlock(g, m, p, q, e);
      |m.blocks| < |m'.blocks| && m'.blocks[|m.blocks|].Inactive() == q
  {
  }

  lemma AllocProtectedSums(g: Geometry, s: Sys, env: Env, a: Abs)
    requires Steady(g, s, a) && Capacity(g, s.mem.meta, Needed(g, s.mem)) && s.mem.meta.generation + 1 < U64_LIMIT
    requires TraceOk(g, s.trace, a, a) && Sums(g, s.mem, s.disk) && |s.mem.blocks| == |s.mem.dirs|
    ensures var s' := AllocProtected(g, s, env).0; Sums(g, s'.mem, s'.disk)
  {
    hide Steady, TraceOk, Capacity, Sums, AllocProtected, AllocInBlock, AllocNewBlock, FirstFreeEntry;
    AllocProtectedCases(g, s, env);
    var b := FirstOpenBlock(s.mem.dirs);
    if b < |s.mem.dirs| {
      InBlockSums(g, s, env, b, a);
    } else if |s.mem.blocks| < MaxDirBlocks(g.pageSize) {
      NewBlockSums(g, s, env, a);
    }
  }

  /** Dropping an entry in memory. */
  lemma DropSums(g: Geometry, m: Mem, m': Mem, d: Disk, id: nat, e: DirEntry)
    requires Sums(g, m, d) && OneEntryDiffers(g, m, m', id, e) && !e.inUse
    ensures Sums(g, m', d)
  {
    hide EntryOf, SumOk;
  }

  lemma FreeInUseSums(g: Geometry, s: Sys, b: nat, slot: nat, a: Abs)
    requires Steady(g, s, a) && Sums(g, s.mem, s.disk) && TraceOk(g, s.trace, a, a)
    requires HasEntry(s.mem, b, slot) && s.mem.dirs[b].entries[slot].inUse
    requires b < |s.mem.blocks| && s.mem.meta.generation + 1 < U64_LIMIT
    ensures
      var e := s.mem.dirs[b].entries[slot];
      var m := Rewritten(s.mem, b, slot, e.(inUse := false));
      && Sums(g, m, s.disk)
      && (s.mapped ==>
            var s1 := CommitDir(g, s.(mem := m), b).0;
            var s2 := Commit(g, WithMeta(s1, Unmark(Unmark(s1.mem.meta, e.pageA), e.pageB))).0;
            Sums(g, s2.mem, s2.disk))
  {
    hide Steady, TraceOk, CommitDir, Commit, Sums, Rewritten, Unmark, DirChange, DirMoves, OneEntryDiffers, FreshPage, Epp,
         Published, After;
    var e := s.mem.dirs[b].entries[slot];
    var m := Rewritten(s.mem, b, slot, e.(inUse := false));
    SharedEntry(g, s, b, slot, a);
    SetDiffers(g, s.mem, b, slot, e.(inUse := false));
    DropSums(g, s.mem, m, s.disk, IdAt(g, b, slot), e.(inUse := false));
    if s.mapped {
      SteadyReady(g, s, a);
      DropEntryChange(g, s, b, slot, a);
      DropEntrySafe(g, s, b, slot, a);
      DirCommitSums(g, s, m, b, IdAt(g, b, slot), e.(inUse := false), a);
      var s1 := CommitDir(g, s.(mem := m), b).0;
      ReleaseSums(g, s1, e.pageA, e.pageB, After(g, s1.dur, a, IdAt(g, b, slot), None));
    }
  }

  lemma FreeProtectedSums(g: Geometry, s: Sys, id: nat, a: Abs)
    requires Steady(g, s, a) && s.mem.meta.generation + 1 < U64_LIMIT && TraceOk(g, s.trace, a, a)
    requires |s.mem.blocks| == |s.mem.dirs| && Sums(g, s.mem, s.disk)
    ensures var s' := FreeProtected(g, s, id).0; Sums(g, s'.mem, s'.disk)
  {
    hide Steady, TraceOk, CommitDir, Commit, Sums, Rewritten, FreeProtected, Unmark, BlockOf, SlotOf;
    if InUse(g, s.mem, id) {
      InUseHasEntry(g, s.mem, id);
      FreeProtectedSteps(g, s, id);
      FreeInUseSums(g, s, BlockOf(g, id), SlotOf(g, id), a);
    } else {
      FreeNotInUse(g, s, id);
    }
  }

  lemma ReleaseSums(g: Geometry, s: Sys, p: nat, q: nat, a: Abs)
    requires Ready(g, s, a) && FreshPage(Held(s), p) && FreshPage(Held(s), q) && p != q
    requires Sums(g, s.mem, s.disk)
    ensures
      var s' := Commit(g, WithMeta(s, Unmark(Unmark(s.mem.meta, p), q))).0;
      Sums(g, s'.mem, s'.disk)
  {
    hide Steady, Commit, Unmark, FreshPage, Consistent, Sums;
    SteadyMeta(g, s, a);
    ReleaseTwo(g, Held(s), p, q);
    var meta := Unmark(Unmark(s.mem.meta, p), q);
    RemarkSteady(g, s, meta, a);
    SumsByDirs(g, s.mem, s.mem.(meta := meta), s.disk);
    CommitSums(g, WithMeta(s, meta), a);
  }

  lemma StoreSums(g: Geometry, m: Mem, d: Disk, i: nat, page: Page)
    requires Sums(g, m, d) && forall x: nat :: InUse(g, m, x) ==> ActivePhys(EntryOf(g, m, x)) != i
    ensures Sums(g, m, Store(d, i, page))
  {
    hide EntryOf;
  }

  lemma FlushSums(g: Geometry, s: Sys, i: nat)
    requires Sums(g, s.mem, s.disk)
    ensures Sums(g, s.mem, Flush(s.disk, i)) && Flush(s.disk, i).mapped == s.disk.mapped
  {
  }

  /** Committing the staged bytes stores their checksum with the flipped entry. */
  lemma CommitWriteSums(g: Geometry, s: Sys, id: nat, a: Abs)
    requires Steady(g, s, a) && TraceOk(g, s.trace, a, a) && |s.mem.blocks| == |s.mem.dirs|
    requires s.mapped && InUse(g, s.mem, id)
    requires EntryOf(g, s.mem, id).generation + 1 < U64_LIMIT && Sums(g, s.mem, s.disk)
    ensures var s' := CommitWrite(g, s, id).0; Sums(g, s'.mem, s'.disk)
  {
    hide Steady, TraceOk, Untouchable, CommitDir, CommitWrite, Flush, Rewritten, Sums, DirChange, DirMoves, OneEntryDiffers,
         Published, BlockOf, SlotOf, InUse, Flipped, InactivePhys, MappedPage;
    InUseHasEntry(g, s.mem, id);
    var b, slot := BlockOf(g, id), SlotOf(g, id);
    var p := InactivePhys(s.mem.dirs[b].entries[slot]);
    CopyMayBeWritten(g, s, id, a);
    FlushSafe(g, s, p, a);
    FlushSums(g, s, p);
    StepFrame(s, Flush(s.disk, p));
    CommitWriteSteps(g, s, id);
    var s1 := Step(s, Flush(s.disk, p));
    SteppedReady(g, s, Flush(s.disk, p), a);
    EntryPages(g, s, b, slot, a);
    FlippedSums(g, s1, b, slot, a);
  }

  /** The inactive copy of a page in use lies in the data pages. */
  lemma EntryPages(g: Geometry, s: Sys, b: nat, slot: nat, a: Abs)
    requires Steady(g, s, a) && HasEntry(s.mem, b, slot) && s.mem.dirs[b].entries[slot].inUse
    ensures 0 < InactivePhys(s.mem.dirs[b].entries[slot]) < s.mem.meta.total <= |s.disk.mapped|
  {
    hide Steady, Owned, Settled, Sized;
    SteadyOwned(g, s, a);
    SteadyParts(g, s, a);
    EntryPagesOwned(s.mem, b, slot);
  }

  lemma FlippedSums(g: Geometry, s: Sys, b: nat, slot: nat, a: Abs)
    requires Ready(g, s, a) && Sums(g, s.mem, s.disk) && |s.mem.blocks| == |s.mem.dirs|
    requires HasEntry(s.mem, b, slot) && s.mem.dirs[b].entries[slot].inUse
    requires s.mem.dirs[b].entries[slot].generation + 1 < U64_LIMIT
    requires 0 < InactivePhys(s.mem.dirs[b].entries[slot]) < s.mem.meta.total <= |s.disk.mapped|
    ensures
      var e := s.mem.dirs[b].entries[slot];
      var m := Rewritten(s.mem, b, slot, Flipped(e, g.crc(MappedPage(s.disk, InactivePhys(e)))));
      var s' := CommitDir(g, s.(mem := m), b).0;
      Sums(g, s'.mem, s'.disk)
  {
    hide Steady, CommitDir, Rewritten, Sums, DirChange, DirMoves, OneEntryDiffers, Published, Flipped, Epp;
    var e := s.mem.dirs[b].entries[slot];
    var c := g.crc(MappedPage(s.disk, InactivePhys(e)));
    SharedEntry(g, s, b, slot, a);
    FlipEntryChange(g, s, b, slot, c, a);
    FlippedEntry(e, c);
    SetDiffers(g, s.mem, b, slot, Flipped(e, c));
    DirCommitSums(g, s, Rewritten(s.mem, b, slot, Flipped(e, c)), b, IdAt(g, b, slot), Flipped(e, c), a);
  }

  lemma WriteProtectedSums(g: Geometry, s: Sys, id: nat, page: Page, a: Abs)
    requires Steady(g, s, a) && TraceOk(g, s.trace, a, a) && |s.mem.blocks| == |s.mem.dirs|
    requires EntryOf(g, s.mem, id).generation + 1 < U64_LIMIT && Sums(g, s.mem, s.disk) && |page| == g.pageSize
    ensures var s' := WriteProtected(g, s, id, page).0; Sums(g, s'.mem, s'.disk)
  {
    hide Steady, TraceOk, Sums, CommitWrite, StageWrite, WriteProtected, EntryOf;
    WriteProtectedCases(g, s, id, page);
    if InUse(g, s.mem, id) && s.mapped {
      StageWriteSafe(g, s, id, page, a);
      StageSums(g, s, id, page, a);
      CommitWriteSums(g, StageWrite(g, s, id, page).0, id, a);
    }
  }

  lemma StageSums(g: Geometry, s: Sys, id: nat, page: Page, a: Abs)
    requires Steady(g, s, a) && Sums(g, s.mem, s.disk)
    ensures var s' := StageWrite(g, s, id, page).0; Sums(g, s'.mem, s'.disk)
  {
    hide Steady, Sums, Store, Untouchable, InactivePhys, EntryOf;
    if InUse(g, s.mem, id) {
      CopyMayBeWritten(g, s, id, a);
      SpareCopies(g, s, InactivePhys(EntryOf(g, s.mem, id)), a);
      StoreSums(g, s.mem, s.disk, InactivePhys(EntryOf(g, s.mem, id)), page);
    }
  }

  lemma WriteRegularSums(g: Geometry, s: Sys, id: nat, page: Page, a: Abs)
    requires Steady(g, s, a) && id !in Referenced(s.dur) && Sums(g, s.mem, s.disk)
    ensures var s' := WriteRegular(s, id, page).0; Sums(g, s'.mem, s'.disk)
  {
    hide Steady, Sums, Store, Untouchable, Referenced;
    if FIRST_DATA_PAGE <= id {
      UnreferencedUntouchable(g, s.dur, id);
      SpareCopies(g, s, id, a);
      StoreSums(g, s.mem, s.disk, id, page);
    }
  }

  lemma AllocBulkSums(g: Geometry, s: Sys, env: Env, n: nat, a: Abs)
    requires Steady(g, s, a) && Capacity(g, s.mem.meta, n) && TraceOk(g, s.trace, a, a)
    requires Sums(g, s.mem, s.disk)
    ensures var s' := AllocBulk(g, s, env, n).0; Sums(g, s'.mem, s'.disk)
  {
    hide Steady, TraceOk, Capacity, AllocRaws, Commit, Sums, UnmarkAll;
    if n > 0 {
      AllocSums(g, s, env, n, a);
      var (s1, ids, r) := AllocRaws(g, s, env, n);
      SumsByDirs(g, s1.mem, s1.mem.(meta := UnmarkAll(s1.mem.meta, ids)), s1.disk);
    }
  }

  lemma AllocSingleSums(g: Geometry, s: Sys, env: Env, a: Abs)
    requires Steady(g, s, a) && Capacity(g, s.mem.meta, 1) && TraceOk(g, s.trace, a, a)
    requires Sums(g, s.mem, s.disk)
    ensures var s' := Alloc(g, s, env).0; Sums(g, s'.mem, s'.disk)
  {
    hide Steady, TraceOk, Capacity, AllocRaws, AllocRaw, Commit, Sums;
    AllocSums(g, s, env, 1, a);
    RawIsRaws(g, s, env);
  }

  lemma FreeSums(g: Geometry, s: Sys, id: nat, a: Abs)
    requires Steady(g, s, a) && id !in Referenced(s.dur) && Sums(g, s.mem, s.disk)
    ensures var s' := Free(g, s, id).0; Sums(g, s'.mem, s'.disk)
  {
    hide Steady, Commit, Unmark, Sums, Consistent, Referenced, Allocated, Exact;
    if FIRST_DATA_PAGE <= id && Allocated(s.mem.meta, id) {
      SteadyMeta(g, s, a);
      ReleasableFresh(s, id);
      UnmarkConsistent(g, Held(s), id);
      UnmarkFrees(s.mem.meta, id);
      var meta := Unmark(s.mem.meta, id);
      RemarkSteady(g, s, meta, a);
      SumsByDirs(g, s.mem, s.mem.(meta := meta), s.disk);
      CommitSums(g, WithMeta(s, meta), a);
    }
  }

  lemma FreeBulkSums(g: Geometry, s: Sys, ids: seq<nat>, a: Abs)
    requires Steady(g, s, a) && Sums(g, s.mem, s.disk)
    requires forall x :: x in ids ==> x !in Referenced(s.dur)
    ensures var s' := FreeBulk(g, s, ids).0; Sums(g, s'.mem, s'.disk)
  {
    hide Steady, Commit, UnmarkAll, Freeable, Sort, AdjacentEqual, CheckIds, Referenced, Sums, Consistent;
    SortFreeable(s.mem.meta, ids);
    var sorted := Sort(ids, IdLeq);
    if ids != [] && Freeable(s.mem.meta, sorted) {
      SteadyMeta(g, s, a);
      SameDirectory(s.dur, Held(s));
      forall x | x in sorted
        ensures x !in Referenced(Held(s))
      {
        SortMembers(ids, IdLeq, x);
      }
      UnmarkAllConsistent(g, Held(s), sorted);
      var meta := UnmarkAll(s.mem.meta, sorted);
      RemarkSteady(g, s, meta, a);
      SumsByDirs(g, s.mem, s.mem.(meta := meta), s.disk);
      CommitSums(g, WithMeta(s, meta), a);
    }
  }

  lemma CallKeepsSums(g: Geometry, s: Sys, op: Op, v: View)
    requires Shows(g, s, v) && Allowed(g, s, op) && Sums(g, s.mem, s.disk)
    ensures var s' := Do(g, Begin(s), op).0; Sums(g, s'.mem, s'.disk)
  {
    hide Shows, Steady, TraceOk, Capacity, Sums, Referenced, Alloc, AllocBulk, Free, FreeBulk, WriteRegular, AllocProtected,
         FreeProtected, StageWrite, WriteProtected, EntryOf, Needed;
    var t := Begin(s);
    var a := v.pages;
    BeginShows(g, s, v);
    ShowsReady(g, t, v);
    match op
    case OpAlloc(env) => AllocSingleSums(g, t, env, a);
    case OpAllocBulk(env, count) => AllocBulkSums(g, t, env, count, a);
    case OpFree(id) => FreeSums(g, t, id, a);
    case OpFreeBulk(ids) => FreeBulkSums(g, t, ids, a);
    case OpWriteRegular(id, page) => WriteRegularSums(g, t, id, page, a);
    case OpAllocProtected(env) => AllocProtectedSums(g, t, env, a);
    case OpFreeProtected(id) => FreeProtectedSums(g, t, id, a);
    case OpStage(id, page) => StageSums(g, t, id, page, a);
    case OpWriteProtected(id, page) => WriteProtectedSums(g, t, id, page, a);
  }

  lemma InitialSums(g: Geometry)
    ensures Sums(g, Created(g).mem, Created(g).disk)
  {
    hide InitialFile;
  }

  /** In every crash-free reachable state, with or without a mapping, each in-use entry stores the
      checksum of its active page and its active copy is the one its generation says. */
  lemma {:induction false} ChecksumsThroughout(g: Geometry, ss: seq<Sys>, es: seq<Event>)
    requires IsRun(g, ss, es) && forall i :: 0 <= i < |es| ==> es[i].Call?
    ensures
      var s := ss[|es|];
      && Sums(g, s.mem, s.disk)
      && forall id: nat :: InUse(g, s.mem, id) ==>
           EntryOf(g, s.mem, id).activeSlot == EntryOf(g, s.mem, id).generation % 2
    decreases |es|
  {
    hide Do, Sums, Shows, Capacity, OwnPages, CrashImage, Open, Created, EntryOf;
    var views := RunRefines(g, ss, es);
    ParityOfEntries(g, ss[|es|], views[|es|]);
    if es == [] {
      InitialSums(g);
    } else {
      var n := |es| - 1;
      ChecksumsThroughout(g, ss[..n + 1], es[..n]);
      assert ss[..n + 1][n] == ss[n];
      assert Next(g, ss[n], es[n], ss[n + 1]);
      CallKeepsSums(g, ss[n], es[n].op, views[n]);
    }
  }

  lemma ParityOfEntries(g: Geometry, s: Sys, v: View)
    requires Shows(g, s, v)
    ensures forall id: nat :: InUse(g, s.mem, id) ==>
              EntryOf(g, s.mem, id).activeSlot == EntryOf(g, s.mem, id).generation % 2
  {
    hide Steady, Exact, MetaFits, Owned, Doubled;
    SteadyMeta(g, s, v.pages);
    forall id: nat | InUse(g, s.mem, id)
      ensures EntryOf(g, s.mem, id).activeSlot == EntryOf(g, s.mem, id).generation % 2
    {
      assert DirShape(g, s.mem.dirs[BlockOf(g, id)]);
    }
  }
}
