/** What a failed `alloc_protected` leaves behind: the bulk and single calls for regular pages
    undo their allocations when growth fails, this one does not. */
module Leaks {
  import opened Bytes
  import opened Results
  import opened Metadata
  import opened Layout
  import opened Recovery
  import opened PagerSpec
  import opened RawAllocation
  import opened Entries
  import opened Runs
  import opened LostMapping

  /** As many raw allocations as there are pages at most: when one fails they have taken every
      page that was free. */
  lemma {:induction false} FailureTakesAll(g: Geometry, s: Sys, env: Env, n: nat)
    requires Exact(s.mem.meta) && n <= s.mem.meta.total && AllocRaws(g, s, env, n).2.Err?
    ensures |AllocRaws(g, s, env, n).1| == s.mem.meta.freeCount
    decreases n
  {
    hide Exact, AllocRaw, TookPage, TookPages, Reachable, Remapped, AllocatedSet;
    if n > 0 {
      RawOutcome(g, s, env);
      var (s1, r) := AllocRaw(g, s, env);
      if r.Ok? {
        RawsOutcome(g, s1, env, n - 1);
        FailureTakesAll(g, s1, env, n - 1);
      }
    }
  }

  lemma OneDoubling(m: Meta, env: Env, n: nat)
    requires m.total > 0 && m.freeCount < n <= m.freeCount + m.total
    ensures Reachable(m, env, n) <==> env(2 * m.total).Grown?
  {
    ReachUnfolds(m.freeCount, m.total, env, n);
    ReachUnfolds(m.freeCount + m.total, 2 * m.total, env, n);
  }

  lemma NeededRange(g: Geometry, m: Mem)
    ensures Needed(g, m) <= 4
    ensures Needed(g, m) == 0 <==> FirstOpenBlock(m.dirs) == |m.dirs| && |m.blocks| >= MaxDirBlocks(g.pageSize)
  {
    hide FirstOpenBlock;
  }

  /** `alloc_protected` on a mapped pager fails exactly when the directory is full, or when fewer
      pages are free than it needs, two with a free slot and four without, and the file cannot be
      doubled. Full, it changes nothing. Short of pages, it leaves every page that was free
      allocated, so it leaks exactly when some page was free. */
  lemma AllocProtectedLeaks(g: Geometry, s: Sys, env: Env)
    requires Exact(s.mem.meta) && s.mapped && |s.mem.blocks| == |s.mem.dirs|
    ensures
      var (s', r) := AllocProtected(g, s, env);
      var m, n := s.mem.meta, Needed(g, s.mem);
      && (r.Err? <==> n == 0 || (m.freeCount < n && !env(2 * m.total).Grown?))
      && (n == 0 ==> r == Err(DirectoryFull) && s' == s)
      && (n > 0 && r.Err? ==>
            && r == Err(Io) && s'.mem.blocks == s.mem.blocks && s'.mem.dirs == s.mem.dirs
            && AllocatedSet(m) <= AllocatedSet(s'.mem.meta)
            && |AllocatedSet(s'.mem.meta)| == |AllocatedSet(m)| + m.freeCount)
      && (r.Err? ==> (AllocatedSet(s'.mem.meta) != AllocatedSet(m) <==> n > 0 && m.freeCount > 0))
  {
    hide Exact, AllocRaws, AllocProtected, TookPages, Reachable, Remapped, AllocatedSet, FirstOpenBlock, Needed;
    var m, n := s.mem.meta, Needed(g, s.mem);
    ExactTotal(m);
    NeededRange(g, s.mem);
    AllocProtectedOutcome(g, s, env);
    if n > m.freeCount {
      OneDoubling(m, env, n);
      RawsOutcome(g, s, env, n);
      RawsKeepDirs(g, s, env, n);
      var (s1, ids, r) := AllocRaws(g, s, env, n);
      if r.Err? {
        FailureTakesAll(g, s, env, n);
        TakenSize(m, s1.mem.meta, ids);
        TookKeeps(m, s1.mem.meta, ids);
      }
    }
  }

  lemma TookKeeps(m: Meta, m': Meta, ids: seq<nat>)
    requires TookPages(m, m', ids)
    ensures AllocatedSet(m) <= AllocatedSet(m')
    ensures ids == [] ==> AllocatedSet(m') == AllocatedSet(m)
  {
    hide AllocatedSet;
  }

  // ── A leaking call ─────────────────────────────────────────────────────────

  lemma NothingYet(g: Geometry)
    ensures Needed(g, InitialMem()) == 4
    ensures |InitialMem().blocks| == |InitialMem().dirs| == 0 && MaxDirBlocks(g.pageSize) > 0
  {
  }

  lemma RawsSecondFails(g: Geometry, s: Sys, env: Env, n: nat)
    requires n >= 2 && AllocRaw(g, s, env).1.Ok? && AllocRaw(g, AllocRaw(g, s, env).0, env).1.Err?
    ensures AllocRaws(g, s, env, n).0 == AllocRaw(g, AllocRaw(g, s, env).0, env).0
  {
    hide AllocRaw;
    var s1 := AllocRaw(g, s, env).0;
    assert AllocRaws(g, s1, env, n - 1).0 == AllocRaw(g, s1, env).0;
  }

  /** The first `alloc_protected` on a new file that cannot grow: it fails, and the one data page
      stays allocated. */
  lemma LeakingCall(g: Geometry)
    ensures
      var s := Created(g);
      var (s', r) := AllocProtected(g, s, Limits(4, 4));
      r == Err(Io) && AllocatedSet(s.mem.meta) == Range(3) && AllocatedSet(s'.mem.meta) == Range(4)
  {
    hide AllocRaw, AllocRaws, AllocProtected, Taken, InitialFile, NewMeta, Needed, Exact, Reachable, Remapped, AllocatedSet;
    var s, env := Created(g), Limits(4, 4);
    NothingYet(g);
    TakenAtFirst();
    TakenTotal(s.mem.meta, 4, 3);
    TakenFree(s.mem.meta, 4, 3);
    AllocProtectedLeaks(g, s, env);
    AllocProtectedOutcome(g, s, env);
    TakenRaw(g, s, env, 4, 3);
    var s1 := AllocRaw(g, s, env).0;
    TakenRaw(g, s1, env, 4, 4);
    RawsSecondFails(g, s, env, 4);
    TakenTotal(s1.mem.meta, 4, 4);
    OneDoubling(s.mem.meta, env, 4);
  }
}
