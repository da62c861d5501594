/** Where every page is: the set bits of the bitmap are partitioned into reserved, regular,
    directory and backing pages, and the counts add up to the page count. */
module Accounting {
  import opened Bytes
  import opened Metadata
  import opened Layout
  import opened Disks
  import opened Recovery
  import opened Sorting
  import opened PagerSpec
  import opened Ownership
  import opened DirSafety
  import opened RawAllocation
  import opened Entries
  import opened Operations
  import opened Bulk
  import opened Runs

  ghost function BagSet(b: multiset<nat>): set<nat> {
    set x | x in b
  }

  /** The pages the regular iterator is for: allocated, not reserved, not behind the directory. */
  ghost function Regular(m: Mem): set<nat> {
    set x | x in AllocatedSet(m.meta) && FIRST_DATA_PAGE <= x && x !in Referenced(m)
  }

  function CountInUse(es: seq<DirEntry>): nat {
    if es == [] then 0 else (if es[0].inUse then 1 else 0) + CountInUse(es[1..])
  }

  /** The number of in-use protected entries. */
  function InUseCount(dirs: seq<DirPage>): nat {
    if dirs == [] then 0 else CountInUse(dirs[0].entries) + InUseCount(dirs[1..])
  }

  // ── Counting bags ──────────────────────────────────────────────────────────

  lemma {:induction false} SumOfPairs(bags: seq<multiset<nat>>)
    requires forall i :: 0 <= i < |bags| ==> |bags[i]| == 2
    ensures |Sum(bags)| == 2 * |bags|
  {
    if bags != [] {
      SumOfPairs(bags[1..]);
    }
  }

  lemma EntryBagsTail(es: seq<DirEntry>)
    requires es != []
    ensures EntryBags(es)[0] == EntryBag(es[0]) && EntryBags(es)[1..] == EntryBags(es[1..])
  {
  }

  lemma DirBagsTail(dirs: seq<DirPage>)
    requires dirs != []
    ensures DirBags(dirs)[0] == Sum(EntryBags(dirs[0].entries)) && DirBags(dirs)[1..] == DirBags(dirs[1..])
  {
  }

  lemma {:induction false} EntriesCount(es: seq<DirEntry>)
    ensures |Sum(EntryBags(es))| == 2 * CountInUse(es)
  {
    hide EntryBags;
    EntryBagsLength(es);
    if es != [] {
      EntriesCount(es[1..]);
      EntryBagsTail(es);
    }
  }

  lemma EntryBagsLength(es: seq<DirEntry>)
    ensures |EntryBags(es)| == |es|
  {
  }

  lemma DirBagsLength(dirs: seq<DirPage>)
    ensures |DirBags(dirs)| == |dirs|
  {
  }

  lemma {:induction false} DirsCount(dirs: seq<DirPage>)
    ensures |Sum(DirBags(dirs))| == 2 * InUseCount(dirs)
  {
    hide DirBags, EntryBags, CountInUse;
    DirBagsLength(dirs);
    if dirs != [] {
      DirsCount(dirs[1..]);
      EntriesCount(dirs[0].entries);
      DirBagsTail(dirs);
    }
  }

  lemma BlocksCount(m: Mem)
    ensures |BlockPages(m)| == 2 * |m.blocks|
  {
    SumOfPairs(RefBags(m.blocks));
  }

  /** A bag without repetitions is as large as its set. */
  lemma {:induction false} SetOfBag(b: multiset<nat>)
    requires forall x: nat :: b[x] <= 1
    ensures |BagSet(b)| == |b|
    decreases |b|
  {
    if b != multiset{} {
      var x :| x in b;
      var rest := b - multiset{x};
      forall y: nat
        ensures rest[y] <= 1
      {
        assert rest[y] <= b[y] <= 1;
      }
      SetOfBag(rest);
      assert b[x] == 1;
      assert BagSet(b) == BagSet(rest) + {x};
    } else {
      assert BagSet(b) == {};
    }
  }

  lemma BagsApart(m: Mem)
    requires Owned(m)
    ensures BagSet(BlockPages(m)) !! BagSet(BackingPages(m))
    ensures |BagSet(BlockPages(m))| == 2 * |m.blocks|
    ensures |BagSet(BackingPages(m))| == 2 * InUseCount(m.dirs)
  {
    hide BlockPages, BackingPages;
    var p, q := BlockPages(m), BackingPages(m);
    forall x: nat
      ensures p[x] <= 1 && q[x] <= 1 && (x !in p || x !in q)
    {
      assert (p + q)[x] == Referenced(m)[x] <= 1;
    }
    BlocksCount(m);
    DirsCountOf(m);
    SetOfBag(p);
    SetOfBag(q);
  }

  lemma DirsCountOf(m: Mem)
    ensures |BackingPages(m)| == 2 * InUseCount(m.dirs)
  {
    DirsCount(m.dirs);
  }

  /** The set bits of the bitmap: reserved pages, regular pages, directory pages and backing
      pages, no page in two of them. */
  lemma PartitionOfAllocated(g: Geometry, m: Mem)
    requires Consistent(g, m)
    ensures
      var reserved, regular := Range(FIRST_DATA_PAGE), Regular(m);
      var blocks, backing := BagSet(BlockPages(m)), BagSet(BackingPages(m));
      && AllocatedSet(m.meta) == reserved + regular + blocks + backing
      && reserved !! regular && reserved !! blocks && reserved !! backing
      && regular !! blocks && regular !! backing && blocks !! backing
  {
    hide BlockPages, BackingPages, BagSet, Referenced, AllocatedSet, Consistent, Owned;
    ConsistentOwned(g, m);
    BagsApart(m);
    ReferencedBags(m);
    ReferencedTaken(g, m);
    var blocks, backing := BagSet(BlockPages(m)), BagSet(BackingPages(m));
    assert AllocatedSet(m.meta) == Range(FIRST_DATA_PAGE) + Regular(m) + blocks + backing;
  }

  lemma ReferencedBags(m: Mem)
    ensures forall x: nat :: x in BagSet(BlockPages(m)) || x in BagSet(BackingPages(m)) <==> x in Referenced(m)
  {
    hide BlockPages, BackingPages;
  }

  lemma ReferencedTaken(g: Geometry, m: Mem)
    requires Consistent(g, m)
    ensures Range(FIRST_DATA_PAGE) <= AllocatedSet(m.meta)
    ensures forall x: nat :: x in Referenced(m) ==> x in AllocatedSet(m.meta) && FIRST_DATA_PAGE <= x
  {
    hide Referenced, AllocatedSet, DirShape, MetaFits, Doubled, BitAt, BytesFor;
    forall x: nat | x in Referenced(m)
      ensures x in AllocatedSet(m.meta) && FIRST_DATA_PAGE <= x
    {
      InAllocatedSet(m.meta, x);
    }
  }

  /** Conservation: every page is free, reserved, regular, a directory page or a backing page. */
  lemma Conservation(g: Geometry, m: Mem)
    requires Consistent(g, m)
    ensures m.meta.total == 3 + m.meta.freeCount + |Regular(m)| + 2 * |m.blocks| + 2 * InUseCount(m.dirs)
    ensures m.meta.freeCount == |set x: nat | x < m.meta.total && !Allocated(m.meta, x)|
  {
    hide BlockPages, BackingPages, Regular, AllocatedSet, BitAt, DirShape, MetaFits, Doubled;
    PartitionOfAllocated(g, m);
    BagsApart(m);
    var blocks, backing := BagSet(BlockPages(m)), BagSet(BackingPages(m));
    assert |Range(FIRST_DATA_PAGE) + Regular(m) + blocks + backing|
        == |Range(FIRST_DATA_PAGE) + Regular(m)| + |blocks + backing|;
    FreeSetSize(m.meta);
  }

  lemma FreeSetSize(m: Meta)
    ensures |set x: nat | x < m.total && !Allocated(m, x)| == m.total - |AllocatedSet(m)|
  {
    hide BitAt;
    var free := set x: nat | x < m.total && !Allocated(m, x);
    assert free !! AllocatedSet(m);
    assert free + AllocatedSet(m) == Range(m.total);
  }

  // ── Regular pages across calls ─────────────────────────────────────────────

  /** The regular pages a caller holds after a call, from its reply alone. */
  function LiveAfter(live: set<nat>, op: Op, r: Reply): set<nat> {
    match r
    case Id(Ok(id)) => if op.OpAlloc? then live + {id} else live
    case Ids(Ok(ids)) => live + ToSet(ids)
    case Unit(Ok(_)) =>
      (match op
       case OpFree(id) => live - {id}
       case OpFreeBulk(ids) => live - ToSet(ids)
       case _ => live)
    case _ => live
  }

  lemma RegularGrows(m: Mem, m': Mem, ids: set<nat>)
    requires Owned(m) && m'.blocks == m.blocks && m'.dirs == m.dirs
    requires AllocatedSet(m'.meta) == AllocatedSet(m.meta) + ids
    requires forall x :: x in ids ==> FIRST_DATA_PAGE <= x && x !in AllocatedSet(m.meta)
    ensures Regular(m') == Regular(m) + ids
  {
    hide Referenced, BitAt;
    SameDirectory(m, m');
    forall x | x in ids
      ensures x !in Referenced(m)
    {
      InAllocatedSet(m.meta, x);
    }
  }

  lemma RegularShrinks(m: Mem, m': Mem, ids: set<nat>)
    requires m'.blocks == m.blocks && m'.dirs == m.dirs
    requires AllocatedSet(m'.meta) == AllocatedSet(m.meta) - ids
    ensures Regular(m') == Regular(m) - ids
  {
    hide Referenced, AllocatedSet;
    SameDirectory(m, m');
  }

  /** Pages that are taken and referenced in the same call are never regular. */
  lemma RegularSame(m: Mem, m': Mem, extra: multiset<nat>)
    requires Referenced(m') == Referenced(m) + extra
    requires AllocatedSet(m'.meta) == AllocatedSet(m.meta) + BagSet(extra)
    requires forall x: nat :: x in extra ==> x !in AllocatedSet(m.meta)
    ensures Regular(m') == Regular(m)
  {
    hide Referenced, AllocatedSet;
    forall x: nat
      ensures x in Regular(m') <==> x in Regular(m)
    {
      assert x in Referenced(m') <==> x in Referenced(m) || x in extra;
      assert x in BagSet(extra) <==> x in extra;
    }
  }

  lemma TakenBag(m: Meta, m': Meta, ids: seq<nat>, bag: multiset<nat>)
    requires TookPages(m, m', ids) && forall x :: x in bag <==> x in ids
    ensures AllocatedSet(m') == AllocatedSet(m) + BagSet(bag)
    ensures forall x: nat :: x in bag ==> x !in AllocatedSet(m)
  {
    hide AllocatedSet;
    assert BagSet(bag) == ToSet(ids);
  }

  lemma InBlockRegular(g: Geometry, s: Sys, env: Env, b: nat)
    requires Consistent(g, s.mem) && Capacity(g, s.mem.meta, 2)
    requires |s.mem.blocks| == |s.mem.dirs| && b < |s.mem.dirs|
    requires FirstFreeEntry(s.mem.dirs[b].entries) < |s.mem.dirs[b].entries|
    ensures AllocInBlock(g, s, env, b).1.Ok? ==> Regular(AllocInBlock(g, s, env, b).0.mem) == Regular(s.mem)
  {
    hide AllocInBlock, AllocRaws, Commit, CommitDir, Rewritten, FirstFreeEntry, Regular, Referenced, TookPages,
         Consistent, Capacity, AllocatedSet, Epp, TakesSmallest, GrownTotal, NewEntry;
    AllocInBlockSteps(g, s, env, b);
    RawsKeepDirs(g, s, env, 2);
    RawsTakeSmallest(g, s, env, 2);
    FreeEntryUnused(s.mem, b);
    var (s1, ids, r) := AllocRaws(g, s, env, 2);
    if r.Ok? && s1.mapped {
      CommitFrame(g, s1);
      var s2 := Commit(g, s1).0;
      var slot := FirstFreeEntry(s.mem.dirs[b].entries);
      var e := NewEntry(g, s2.disk, ids[0], ids[1]);
      NewEntryInUse(g, s2.disk, ids[0], ids[1]);
      TookThenBumped(s.mem.meta, s1.mem.meta, ids);
      TakeRegular(s.mem, s2.mem, b, slot, e, ids);
    }
  }

  lemma TakeRegular(m: Mem, m2: Mem, b: nat, slot: nat, e: DirEntry, ids: seq<nat>)
    requires m2.blocks == m.blocks && m2.dirs == m.dirs && |m.blocks| == |m.dirs|
    requires HasEntry(m, b, slot) && !m.dirs[b].entries[slot].inUse
    requires |ids| == 2 && TookPages(m.meta, m2.meta, ids) && e.inUse && e.pageA == ids[0] && e.pageB == ids[1]
    ensures
      var m3 := Rewritten(m2, b, slot, e);
      Regular(m3.(blocks := FlipBlock(m3.blocks, b))) == Regular(m)
  {
    hide Regular, Referenced, TookPages, AllocatedSet;
    var m3 := Rewritten(m2, b, slot, e);
    var m4 := m3.(blocks := FlipBlock(m3.blocks, b));
    SetEntryReferenced(m2, b, slot, e);
    assert Referenced(m3) == Referenced(m2) + EntryBag(e);
    FlipReferenced(m3, b);
    SameDirectory(m, m2);
    TakenBag(m.meta, m2.meta, ids, EntryBag(e));
    RegularSame(m, m4, EntryBag(e));
  }

  lemma NewBlockRegular(g: Geometry, s: Sys, env: Env)
    requires Consistent(g, s.mem) && Capacity(g, s.mem.meta, 4)
    requires |s.mem.blocks| == |s.mem.dirs|
    ensures AllocNewBlock(g, s, env).1.Ok? ==> Regular(AllocNewBlock(g, s, env).0.mem) == Regular(s.mem)
  {
    hide AllocNewBlock, AllocRaws, Commit, CommitDir, AppendBlock, Regular, Referenced, TookPages,
         Consistent, Capacity, AllocatedSet, Epp, TakesSmallest, GrownTotal, NewEntry;
    AllocNewBlockSteps(g, s, env);
    RawsKeepDirs(g, s, env, 4);
    RawsTakeSmallest(g, s, env, 4);
    var (s1, ids, r) := AllocRaws(g, s, env, 4);
    if r.Ok? && s1.mapped {
      CommitFrame(g, s1);
      var s2 := Commit(g, s1).0;
      var e := NewEntry(g, s2.disk, ids[2], ids[3]);
      NewEntryInUse(g, s2.disk, ids[2], ids[3]);
      TookThenBumped(s.mem.meta, s1.mem.meta, ids);
      AppendRegular(g, s.mem, s2.mem, e, ids);
    }
  }

  lemma AppendRegular(g: Geometry, m: Mem, m2: Mem, e: DirEntry, ids: seq<nat>)
    requires m2.blocks == m.blocks && m2.dirs == m.dirs
    requires |ids| == 4 && TookPages(m.meta, m2.meta, ids) && e.inUse && e.pageA == ids[2] && e.pageB == ids[3]
    ensures |AppendBlock(g, m2, ids[0], ids[1], e).blocks| > |m.blocks|
    ensures
      var m3 := AppendBlock(g, m2, ids[0], ids[1], e);
      Regular(m3.(blocks := FlipBlock(m3.blocks, |m.blocks|))) == Regular(m)
  {
    hide Regular, Referenced, TookPages, AllocatedSet, AppendBlock;
    AppendFrame(g, m2, ids[0], ids[1], e);
    var m3 := AppendBlock(g, m2, ids[0], ids[1], e);
    var m4 := m3.(blocks := FlipBlock(m3.blocks, |m.blocks|));
    var bag := multiset{ids[0], ids[1], ids[2], ids[3]};
    AppendReferenced(g, m2, ids[0], ids[1], e);
    FlipReferenced(m3, |m.blocks|);
    SameDirectory(m, m2);
    assert forall x :: x in bag <==> x in ids;
    TakenBag(m.meta, m2.meta, ids, bag);
    RegularSame(m, m4, bag);
  }

  lemma FreeProtectedRegular(g: Geometry, s: Sys, id: nat)
    requires Consistent(g, s.mem) && |s.mem.blocks| == |s.mem.dirs|
    ensures
      var (s', r) := FreeProtected(g, s, id);
      r.Ok? ==> Regular(s'.mem) == Regular(s.mem)
  {
    hide FreeProtected, Commit, CommitDir, Unmark, Rewritten, Regular, Consistent, BlockOf, SlotOf;
    if InUse(g, s.mem, id) {
      InUseHasEntry(g, s.mem, id);
      FreeProtectedSteps(g, s, id);
      var b, slot := BlockOf(g, id), SlotOf(g, id);
      var e := s.mem.dirs[b].entries[slot];
      var m := Rewritten(s.mem, b, slot, e.(inUse := false));
      if s.mapped {
        var s1 := CommitDir(g, s.(mem := m), b).0;
        var meta := Unmark(Unmark(s1.mem.meta, e.pageA), e.pageB);
        CommitFrame(g, WithMeta(s1, meta));
        DropRegular(g, s.mem, b, slot, meta);
      }
    } else {
      FreeNotInUse(g, s, id);
    }
  }

  lemma DropRegular(g: Geometry, m: Mem, b: nat, slot: nat, meta: Meta)
    requires Consistent(g, m) && HasEntry(m, b, slot) && m.dirs[b].entries[slot].inUse
    requires b < |m.blocks|
    requires
      var e := m.dirs[b].entries[slot];
      meta == Unmark(Unmark(m.meta, e.pageA), e.pageB)
    ensures
      var e := m.dirs[b].entries[slot];
      var m3 := Rewritten(m, b, slot, e.(inUse := false));
      forall active ::
        Regular(m3.(blocks := FlipBlock(m3.blocks, b), meta := NextGeneration(meta), active := active)) == Regular(m)
  {
    hide Regular, Referenced, AllocatedSet, Unmark, Consistent, FreshPage;
    var e := m.dirs[b].entries[slot];
    var m3 := Rewritten(m, b, slot, e.(inUse := false));
    ConsistentOwned(g, m);
    DropEntryConsistent(g, m, b, slot);
    DroppedPagesFresh(m, b, slot);
    ReleaseTwo(g, m3, e.pageA, e.pageB);
    GenerationOnly(meta);
    SetEntryReferenced(m, b, slot, e.(inUse := false));
    FlipReferenced(m3, b);
    assert Referenced(m3) + EntryBag(e) == Referenced(m);
    var m4 := m3.(blocks := FlipBlock(m3.blocks, b), meta := NextGeneration(meta));
    SameDirectory(m3.(blocks := FlipBlock(m3.blocks, b)), m4);
    BackingAllocated(m, b, slot);
    assert BagSet(EntryBag(e)) == {e.pageA, e.pageB};
    RegularSame(m4, m, EntryBag(e));
    forall active
      ensures Regular(m4.(active := active)) == Regular(m4)
    {
      RegularIgnoresActive(m4, active);
    }
  }

  lemma RegularIgnoresActive(m: Mem, active: Selector)
    ensures Regular(m.(active := active)) == Regular(m)
  {
    hide AllocatedSet;
    SameDirectory(m, m.(active := active));
  }

  lemma ConsistentOwned(g: Geometry, m: Mem)
    requires Consistent(g, m)
    ensures Owned(m) && |m.blocks| == |m.dirs| && Exact(m.meta)
  {
  }

  lemma BackingAllocated(m: Mem, b: nat, slot: nat)
    requires Owned(m) && HasEntry(m, b, slot) && m.dirs[b].entries[slot].inUse
    ensures m.dirs[b].entries[slot].pageA in AllocatedSet(m.meta)
    ensures m.dirs[b].entries[slot].pageB in AllocatedSet(m.meta)
  {
    EntryReferenced(m, b, slot);
    var e := m.dirs[b].entries[slot];
    assert e.pageA in EntryBag(e) && e.pageB in EntryBag(e);
    assert e.pageA in Referenced(m) && e.pageB in Referenced(m);
  }

  lemma AllocRegular(g: Geometry, s: Sys, env: Env)
    requires Consistent(g, s.mem) && Capacity(g, s.mem.meta, 1)
    ensures
      var (s', r) := Alloc(g, s, env);
      r.Ok? ==> Regular(s'.mem) == Regular(s.mem) + {r.value}
  {
    hide AllocRaw, Commit, Regular, Consistent, Capacity, AllocatedSet, GrownTotal;
    RawTakesSmallest(g, s, env, 1);
    RawKeepsDirs(g, s, env);
    var (s1, r) := AllocRaw(g, s, env);
    if r.Ok? {
      CommitFrame(g, s1);
      GenerationOnly(s1.mem.meta);
      ConsistentOwned(g, s.mem);
      RegularGrows(s.mem, Commit(g, s1).0.mem, {r.value});
    }
  }

  lemma TookSet(m: Meta, m': Meta, ids: seq<nat>)
    requires TookPages(m, m', ids)
    ensures AllocatedSet(m') == AllocatedSet(m) + ToSet(ids)
    ensures forall x :: x in ToSet(ids) ==> FIRST_DATA_PAGE <= x && x !in AllocatedSet(m)
  {
    hide AllocatedSet;
  }

  lemma AllocBulkRegular(g: Geometry, s: Sys, env: Env, n: nat)
    requires Consistent(g, s.mem) && Capacity(g, s.mem.meta, n)
    ensures
      var (s', r) := AllocBulk(g, s, env, n);
      r.Ok? ==> Regular(s'.mem) == Regular(s.mem) + ToSet(r.value)
  {
    hide AllocRaws, Commit, Regular, Consistent, Capacity, AllocatedSet, GrownTotal, TakesSmallest, TookPages, UnmarkAll, ToSet;
    RawsTakeSmallest(g, s, env, n);
    RawsKeepDirs(g, s, env, n);
    ConsistentOwned(g, s.mem);
    NothingTaken();
    var (s1, ids, r) := AllocRaws(g, s, env, n);
    if n > 0 && r.Ok? {
      CommitFrame(g, s1);
      TookThenBumped(s.mem.meta, s1.mem.meta, ids);
      var s2 := Commit(g, s1).0;
      TookSet(s.mem.meta, s2.mem.meta, ids);
      RegularGrows(s.mem, s2.mem, ToSet(ids));
    }
  }

  lemma NothingTaken()
    ensures ToSet([]) == {}
  {
  }

  lemma FreeRegular(g: Geometry, s: Sys, id: nat)
    requires Consistent(g, s.mem)
    ensures
      var (s', r) := Free(g, s, id);
      r.Ok? ==> Regular(s'.mem) == Regular(s.mem) - {id}
  {
    hide Commit, Regular, Consistent, AllocatedSet, Unmark, Exact, Allocated;
    if FIRST_DATA_PAGE <= id && Allocated(s.mem.meta, id) {
      ConsistentOwned(g, s.mem);
      UnmarkFrees(s.mem.meta, id);
      var meta := Unmark(s.mem.meta, id);
      CommitFrame(g, WithMeta(s, meta));
      GenerationOnly(meta);
      RegularShrinks(s.mem, Commit(g, WithMeta(s, meta)).0.mem, {id});
    }
  }

  lemma FreeBulkRegular(g: Geometry, s: Sys, ids: seq<nat>)
    requires Consistent(g, s.mem)
    ensures
      var (s', r) := FreeBulk(g, s, ids);
      r.Ok? ==> Regular(s'.mem) == Regular(s.mem) - ToSet(ids)
  {
    hide Commit, Regular, Consistent, AllocatedSet, Freeable, Exact, Sort, AdjacentEqual, CheckIds, UnmarkAll, ToSet;
    ConsistentOwned(g, s.mem);
    SortFreeable(s.mem.meta, ids);
    NothingTaken();
    var sorted := Sort(ids, IdLeq);
    if ids != [] && FreeBulk(g, s, ids).1.Ok? {
      UnmarkAllFrees(s.mem.meta, sorted);
      var meta := UnmarkAll(s.mem.meta, sorted);
      CommitFrame(g, WithMeta(s, meta));
      GenerationOnly(meta);
      RegularShrinks(s.mem, Commit(g, WithMeta(s, meta)).0.mem, ToSet(ids));
    }
  }

  lemma AllocProtectedRegular(g: Geometry, s: Sys, env: Env)
    requires Consistent(g, s.mem) && Capacity(g, s.mem.meta, Needed(g, s.mem)) && |s.mem.blocks| == |s.mem.dirs|
    ensures
      var (s', r) := AllocProtected(g, s, env);
      r.Ok? ==> Regular(s'.mem) == Regular(s.mem)
  {
    hide AllocProtected, AllocInBlock, AllocNewBlock, Regular, Consistent, Capacity, Epp, FirstFreeEntry;
    AllocProtectedCases(g, s, env);
    var b := FirstOpenBlock(s.mem.dirs);
    if b < |s.mem.dirs| {
      InBlockRegular(g, s, env, b);
    } else if |s.mem.blocks| < MaxDirBlocks(g.pageSize) {
      NewBlockRegular(g, s, env);
    }
  }

  lemma WriteProtectedRegular(g: Geometry, s: Sys, id: nat, page: Page)
    requires Consistent(g, s.mem) && |s.mem.blocks| == |s.mem.dirs|
    ensures Regular(WriteProtected(g, s, id, page).0.mem) == Regular(s.mem)
  {
    hide WriteProtected, StageWrite, CommitWrite, CommitDir, Flush, Regular, Consistent, Rewritten, BlockOf, SlotOf, InUse,
         MappedPage, InactivePhys;
    WriteProtectedCases(g, s, id, page);
    if InUse(g, s.mem, id) && s.mapped {
      InUseHasEntry(g, s.mem, id);
      var s0 := StageWrite(g, s, id, page).0;
      CommitWriteSteps(g, s0, id);
      var b, slot := BlockOf(g, id), SlotOf(g, id);
      var e := s.mem.dirs[b].entries[slot];
      var s1 := Step(s0, Flush(s0.disk, InactivePhys(e)));
      var e' := Flipped(e, g.crc(MappedPage(s1.disk, InactivePhys(e))));
      FlipRegular(s.mem, b, slot, e');
    }
  }

  lemma FlipRegular(m: Mem, b: nat, slot: nat, e: DirEntry)
    requires HasEntry(m, b, slot) && b < |m.blocks| && EntryBag(e) == EntryBag(m.dirs[b].entries[slot])
    ensures
      var m3 := Rewritten(m, b, slot, e);
      Regular(m3.(blocks := FlipBlock(m3.blocks, b))) == Regular(m)
  {
    hide Referenced, AllocatedSet;
    var m3 := Rewritten(m, b, slot, e);
    SetEntryReferenced(m, b, slot, e);
    SameSum(Referenced(m3), Referenced(m), EntryBag(e));
    FlipReferenced(m3, b);
  }

  /** After a call that succeeded, or failed without changing memory, the regular pages are
      those its reply accounts for. */
  lemma CallTracksRegular(g: Geometry, s: Sys, op: Op)
    requires Consistent(g, s.mem) && Allowed(g, s, op)
    ensures
      var (s', r) := Do(g, Begin(s), op);
      r.Succeeded() || s'.mem == s.mem ==> Regular(s'.mem) == LiveAfter(Regular(s.mem), op, r)
  {
    hide Consistent, Capacity, OwnPages, Regular, Do, EntryOf;
    var reply := Do(g, Begin(s), op).1;
    if reply.Succeeded() {
      SuccessTracksRegular(g, s, op);
    } else {
      assert LiveAfter(Regular(s.mem), op, reply) == Regular(s.mem);
    }
  }

  lemma SuccessTracksRegular(g: Geometry, s: Sys, op: Op)
    requires Consistent(g, s.mem) && Allowed(g, s, op)
    ensures
      var (s', r) := Do(g, Begin(s), op);
      r.Succeeded() ==> Regular(s'.mem) == LiveAfter(Regular(s.mem), op, r)
  {
    hide Consistent, Capacity, OwnPages, Regular, Alloc, AllocBulk, Free, FreeBulk, AllocProtected, FreeProtected,
         WriteProtected, EntryOf, Needed;
    var t := Begin(s);
    match op
    case OpAlloc(env) => AllocRegular(g, t, env);
    case OpAllocBulk(env, count) => AllocBulkRegular(g, t, env, count);
    case OpFree(id) => FreeRegular(g, t, id);
    case OpFreeBulk(ids) => FreeBulkRegular(g, t, ids);
    case OpWriteRegular(id, page) =>
    case OpAllocProtected(env) => AllocProtectedRegular(g, t, env);
    case OpFreeProtected(id) => FreeProtectedRegular(g, t, id);
    case OpStage(id, page) =>
    case OpWriteProtected(id, page) => WriteProtectedRegular(g, t, id, page);
  }

  // ── Crash-free runs ────────────────────────────────────────────────────────

  /** A run of calls only, each of which succeeded or failed without changing memory. */
  predicate NothingHalfway(ss: seq<Sys>, es: seq<Event>) {
    && |ss| == |es| + 1
    && forall i :: 0 <= i < |es| ==> es[i].Call? && (es[i].reply.Succeeded() || ss[i + 1].mem == ss[i].mem)
  }

  /** The regular pages the caller holds at the end of such a run, from the replies alone. */
  function LivePages(es: seq<Event>): set<nat> {
    if es == [] then {}
    else
      var last := es[|es| - 1];
      var before := LivePages(es[..|es| - 1]);
      if last.Call? then LiveAfter(before, last.op, last.reply) else before
  }

  lemma InitialRegular(g: Geometry)
    ensures Regular(InitialMem()) == {}
  {
    NewMetaExact(4);
    hide NewMeta, BitAt, Referenced;
  }

  lemma {:induction false} LiveIsRegular(g: Geometry, ss: seq<Sys>, es: seq<Event>)
    requires IsRun(g, ss, es) && NothingHalfway(ss, es)
    ensures Regular(ss[|es|].mem) == LivePages(es)
    decreases |es|
  {
    hide Do, Regular, Steady, Shows, Consistent, Capacity, OwnPages, EntryOf, CrashImage, Open, LiveAfter;
    if es == [] {
      InitialRegular(g);
    } else {
      var n := |es| - 1;
      LiveIsRegular(g, ss[..n + 1], es[..n]);
      assert ss[..n + 1][n] == ss[n];
      assert Next(g, ss[n], es[n], ss[n + 1]);
      var views := RunRefines(g, ss, es);
      ShowsReady(g, ss[n], views[n]);
      SteadyMeta(g, ss[n], views[n].pages);
      CallTracksRegular(g, ss[n], es[n].op);
    }
  }

  /** Conservation over crash-free runs: every page is free, reserved, held by the caller,
      a directory page or the backing page of an in-use protected entry. */
  lemma RunConserves(g: Geometry, ss: seq<Sys>, es: seq<Event>)
    requires IsRun(g, ss, es) && NothingHalfway(ss, es)
    ensures
      var m := ss[|es|].mem;
      m.meta.total == 3 + m.meta.freeCount + |LivePages(es)| + 2 * |m.blocks| + 2 * InUseCount(m.dirs)
  {
    hide Steady, Shows, IsRun, NothingHalfway, LivePages, Consistent;
    RunLength(g, ss, es);
    var views := RunRefines(g, ss, es);
    ShowsReady(g, ss[|es|], views[|es|]);
    SteadyMeta(g, ss[|es|], views[|es|].pages);
    LiveIsRegular(g, ss, es);
    Conservation(g, ss[|es|].mem);
  }
}
