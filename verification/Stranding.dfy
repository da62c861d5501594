/** Several protected pages at once, before the call is made: how many of them a call will obtain,
    and when a call that fails leaves those it obtained in the file. */
module Stranding {
  import opened Bytes
  import opened Results
  import opened Metadata
  import opened Layout
  import opened Disks
  import opened Recovery
  import opened PagerSpec
  import opened Ownership
  import opened Safety
  import opened RawAllocation
  import opened Entries
  import opened Operations
  import opened Bulk
  import opened Runs
  import opened ProtectedBulk
  import opened LostMapping

  // ── The directory's shape ──────────────────────────────────────────────────

  function FreeEntries(es: seq<DirEntry>): nat {
    if es == [] then 0 else (if es[0].inUse then 0 else 1) + FreeEntries(es[1..])
  }

  /** The free slots of all directory pages. */
  function FreeSlots(dirs: seq<DirPage>): nat {
    if dirs == [] then 0 else FreeEntries(dirs[0].entries) + FreeSlots(dirs[1..])
  }

  /** The pages n calls in a row take, with so many free slots in so many directory pages: two for
      a free slot, four for a new directory page, none once the directory is full. */
  function Demands(g: Geometry, slots: nat, blocks: nat, n: nat): nat
    decreases n
  {
    if n == 0 then 0
    else if slots > 0 then 2 + Demands(g, slots - 1, blocks, n - 1)
    else if blocks < MaxDirBlocks(g.pageSize) then 4 + Demands(g, Epp(g) - 1, blocks + 1, n - 1)
    else 0
  }

  function Demanded(g: Geometry, m: Mem, n: nat): nat {
    Demands(g, FreeSlots(m.dirs), |m.blocks|, n)
  }

  /** The protected ids the directory has left. */
  function IdsLeft(g: Geometry, m: Mem): nat {
    FreeSlots(m.dirs) + SatSub(MaxDirBlocks(g.pageSize), |m.blocks|) * Epp(g)
  }

  /** What can be said before the call of whether n single calls in a row all succeed: the
      directory has the ids, the file has the pages or can be doubled until it has, and a file that
      is not mapped becomes mapped because the first call has to grow it. */
  predicate Obtainable(g: Geometry, s: Sys, env: Env, n: nat)
    requires s.mem.meta.total > 0
  {
    n == 0 ||
    (&& n <= IdsLeft(g, s.mem) && Reachable(s.mem.meta, env, Demanded(g, s.mem, n))
     && (s.mapped || Needed(g, s.mem) > s.mem.meta.freeCount))
  }

  /** What stops the calls after k of them. */
  function Obstacle(g: Geometry, s: Sys, k: nat): Error {
    if k >= IdsLeft(g, s.mem) then DirectoryFull
    else if k == 0 && !s.mapped && Needed(g, s.mem) <= s.mem.meta.freeCount then Unavailable
    else Io
  }

  /** The first call succeeds, a later one needs a growth, and that growth loses the mapping. */
  predicate Strands(g: Geometry, s: Sys, env: Env, n: nat)
    requires s.mem.meta.total > 0
  {
    && Obtainable(g, s, env, 1)
    && !Reachable(s.mem.meta, env, Demanded(g, s.mem, n)) && !Remapped(s.mem.meta, env, Demanded(g, s.mem, n))
  }

  // ── What one call does to the shape ────────────────────────────────────────

  lemma {:induction false} NoFreeEntry(es: seq<DirEntry>)
    ensures FreeEntries(es) == 0 <==> FirstFreeEntry(es) == |es|
  {
    if es != [] && es[0].inUse {
      NoFreeEntry(es[1..]);
    }
  }

  lemma {:induction false} NoFreeSlot(dirs: seq<DirPage>)
    ensures FreeSlots(dirs) == 0 <==> FirstOpenBlock(dirs) == |dirs|
  {
    hide FirstFreeEntry, FreeEntries;
    if dirs != [] {
      NoFreeEntry(dirs[0].entries);
      NoFreeSlot(dirs[1..]);
    }
  }

  lemma {:induction false} EntryTaken(es: seq<DirEntry>, i: nat, e: DirEntry)
    requires i < |es| && !es[i].inUse && e.inUse
    ensures FreeEntries(es[i := e]) + 1 == FreeEntries(es)
  {
    var es' := es[i := e];
    if i == 0 {
      assert es'[1..] == es[1..];
    } else {
      EntryTaken(es[1..], i - 1, e);
      assert es'[1..] == es[1..][i - 1 := e];
    }
  }

  lemma {:induction false} SlotTaken(dirs: seq<DirPage>, b: nat, slot: nat, e: DirEntry)
    requires b < |dirs| && slot < |dirs[b].entries| && !dirs[b].entries[slot].inUse && e.inUse
    ensures FreeSlots(SetEntry(dirs, b, slot, e)) + 1 == FreeSlots(dirs)
  {
    hide FreeEntries;
    var dirs' := SetEntry(dirs, b, slot, e);
    if b == 0 {
      EntryTaken(dirs[0].entries, slot, e);
      assert dirs'[1..] == dirs[1..];
    } else {
      SlotTaken(dirs[1..], b - 1, slot, e);
      assert dirs'[1..] == SetEntry(dirs[1..], b - 1, slot, e);
    }
  }

  lemma {:induction false} AllFree(es: seq<DirEntry>)
    requires forall i :: 0 <= i < |es| ==> !es[i].inUse
    ensures FreeEntries(es) == |es|
  {
    if es != [] {
      AllFree(es[1..]);
    }
  }

  lemma {:induction false} BlockAdded(dirs: seq<DirPage>, d: DirPage)
    ensures FreeSlots(dirs + [d]) == FreeSlots(dirs) + FreeEntries(d.entries)
  {
    hide FreeEntries;
    if dirs == [] {
      assert dirs + [d] == [d];
      assert FreeSlots([d]) == FreeEntries(d.entries) + FreeSlots([d][1..]);
    } else {
      BlockAdded(dirs[1..], d);
      assert (dirs + [d])[1..] == dirs[1..] + [d];
    }
  }

  lemma NewBlockSlots(g: Geometry, m: Mem, a: nat, b: nat, e: DirEntry)
    requires e.inUse
    ensures FreeSlots(AppendBlock(g, m, a, b, e).dirs) == FreeSlots(m.dirs) + Epp(g) - 1
  {
    hide FreeEntries, FreeSlots;
    var blank := NewDirPage(g.pageSize);
    AllFree(blank.entries);
    EntryTaken(blank.entries, 0, e);
    BlockAdded(m.dirs, blank.(entries := blank.entries[0 := e]));
  }

  /** The pages and the directory after a call that succeeded. */
  ghost predicate OneMore(g: Geometry, m: Mem, m': Mem) {
    && Exact(m'.meta) && |m'.blocks| == |m'.dirs|
    && m.meta.total > 0 && Needed(g, m) > 0
    && m'.meta.total == GrownTotal(m.meta.freeCount, m.meta.total, Needed(g, m))
    && m'.meta.freeCount + Needed(g, m) + m.meta.total == m.meta.freeCount + m'.meta.total
    && (if FreeSlots(m.dirs) > 0 then
          FreeSlots(m'.dirs) == FreeSlots(m.dirs) - 1 && |m'.blocks| == |m.blocks| && Needed(g, m) == 2
        else
          FreeSlots(m'.dirs) == Epp(g) - 1 && |m'.blocks| == |m.blocks| + 1 && Needed(g, m) == 4
          && |m.blocks| < MaxDirBlocks(g.pageSize))
  }

  lemma NeededBySlots(g: Geometry, m: Mem)
    requires |m.blocks| == |m.dirs|
    ensures
      Needed(g, m) ==
      if FreeSlots(m.dirs) > 0 then 2 else if |m.blocks| >= MaxDirBlocks(g.pageSize) then 0 else 4
  {
    hide FreeSlots, FirstOpenBlock;
    NoFreeSlot(m.dirs);
  }

  lemma InBlockOneMore(g: Geometry, s: Sys, env: Env, b: nat)
    requires Exact(s.mem.meta) && |s.mem.blocks| == |s.mem.dirs| && b == FirstOpenBlock(s.mem.dirs) < |s.mem.dirs|
    ensures var (s', r) := AllocInBlock(g, s, env, b); r.Ok? ==> s'.mapped && OneMore(g, s.mem, s'.mem)
  {
    hide AllocInBlock, AllocRaws, Commit, CommitDir, FirstFreeEntry, FirstOpenBlock, NewEntry, FreeSlots, Exact, TookPages,
         IdAt, Reachable, Remapped, GrownTotal;
    AllocInBlockSteps(g, s, env, b);
    RawsOutcome(g, s, env, 2);
    RawsKeepDirs(g, s, env, 2);
    FreeEntryUnused(s.mem, b);
    NeededBySlots(g, s.mem);
    NoFreeSlot(s.mem.dirs);
    var (s1, ids, r) := AllocRaws(g, s, env, 2);
    if r.Ok? && s1.mapped {
      CommitFrame(g, s1);
      BumpExact(s1.mem.meta);
      var s2 := Commit(g, s1).0;
      TakenInUse(g, s2.disk, ids[0], ids[1]);
      SlotTaken(s.mem.dirs, b, FirstFreeEntry(s.mem.dirs[b].entries), NewEntry(g, s2.disk, ids[0], ids[1]));
    }
  }

  lemma TakenInUse(g: Geometry, d: Disk, pa: nat, pb: nat)
    ensures NewEntry(g, d, pa, pb).inUse
  {
  }

  lemma NewBlockOneMore(g: Geometry, s: Sys, env: Env)
    requires Exact(s.mem.meta) && |s.mem.blocks| == |s.mem.dirs| == FirstOpenBlock(s.mem.dirs)
    requires |s.mem.blocks| < MaxDirBlocks(g.pageSize)
    ensures var (s', r) := AllocNewBlock(g, s, env); r.Ok? ==> s'.mapped && OneMore(g, s.mem, s'.mem)
  {
    hide AllocNewBlock, AllocRaws, Commit, CommitDir, FirstOpenBlock, NewEntry, FreeSlots, Exact, TookPages, AppendBlock,
         IdAt, Reachable, Remapped, GrownTotal;
    AllocNewBlockSteps(g, s, env);
    RawsOutcome(g, s, env, 4);
    RawsKeepDirs(g, s, env, 4);
    NeededBySlots(g, s.mem);
    NoFreeSlot(s.mem.dirs);
    var (s1, ids, r) := AllocRaws(g, s, env, 4);
    if r.Ok? && s1.mapped {
      CommitFrame(g, s1);
      BumpExact(s1.mem.meta);
      var s2 := Commit(g, s1).0;
      var e := NewEntry(g, s2.disk, ids[2], ids[3]);
      TakenInUse(g, s2.disk, ids[2], ids[3]);
      NewBlockSlots(g, s2.mem, ids[0], ids[1], e);
      AppendFrame(g, s2.mem, ids[0], ids[1], e);
    }
  }

  lemma CallOneMore(g: Geometry, s: Sys, env: Env)
    requires Exact(s.mem.meta) && |s.mem.blocks| == |s.mem.dirs|
    ensures var (s', r) := AllocProtected(g, s, env); r.Ok? ==> s'.mapped && OneMore(g, s.mem, s'.mem)
  {
    hide AllocProtected, AllocInBlock, AllocNewBlock, FirstFreeEntry, OneMore, Exact;
    AllocProtectedCases(g, s, env);
    var b := FirstOpenBlock(s.mem.dirs);
    if b < |s.mem.dirs| {
      InBlockOneMore(g, s, env, b);
    } else if |s.mem.blocks| < MaxDirBlocks(g.pageSize) {
      NewBlockOneMore(g, s, env);
    }
  }

  // ── What one call does to the conditions ───────────────────────────────────

  lemma MonusTimes(a: nat, b: nat, k: nat)
    requires a > b
    ensures SatSub(a, b) * k == SatSub(a, b + 1) * k + k
  {
    assert SatSub(a, b) == SatSub(a, b + 1) + 1;
  }

  lemma ShapeStep(g: Geometry, m: Mem, m': Mem, k: nat)
    requires OneMore(g, m, m')
    ensures IdsLeft(g, m) == IdsLeft(g, m') + 1
    ensures Demanded(g, m, k + 1) == Needed(g, m) + Demanded(g, m', k)
  {
    hide Exact, GrownTotal, FreeSlots, Needed, Epp, MaxDirBlocks;
    if FreeSlots(m.dirs) == 0 {
      MonusTimes(MaxDirBlocks(g.pageSize), |m.blocks|, Epp(g));
    }
  }

  /** The growths for a pages and then for b more are the growths for both. */
  lemma {:induction false} ReachTwice(free: nat, total: nat, env: Env, a: nat, b: nat, free': nat, total': nat)
    requires total > 0 && total' == GrownTotal(free, total, a) && free' + a + total == free + total'
    requires Reach(free, total, env, a)
    ensures Reach(free', total', env, b) <==> Reach(free, total, env, a + b)
    ensures !Reach(free, total, env, a + b) ==> Refusal(free', total', env, b) == Refusal(free, total, env, a + b)
    decreases a - free, a
  {
    hide Reach, Refusal, GrownTotal;
    ReachUnfolds(free, total, env, a);
    GrownUnfolds(free, total, a);
    if a <= free {
      ReachLess(free, total, env, a, b);
    } else {
      ReachUnfolds(free, total, env, a + b);
      ReachTwice(free + total, 2 * total, env, a, b, free', total');
    }
  }

  /** Taking pages that are free leaves the growths as they are. */
  lemma {:induction false} ReachLess(free: nat, total: nat, env: Env, a: nat, b: nat)
    requires total > 0 && a <= free
    ensures Reach(free - a, total, env, b) <==> Reach(free, total, env, a + b)
    ensures !Reach(free, total, env, a + b) ==> Refusal(free - a, total, env, b) == Refusal(free, total, env, a + b)
    decreases a
  {
    hide Reach, Refusal;
    if a > 0 {
      ReachShift(free, total, env, a + b);
      ReachLess(free - 1, total, env, a - 1, b);
    }
  }

  /** What cannot be reached stays out of reach, for the same reason, when more is asked for. */
  lemma {:induction false} ReachMore(free: nat, total: nat, env: Env, a: nat, b: nat)
    requires total > 0 && a <= b
    ensures Reach(free, total, env, b) ==> Reach(free, total, env, a)
    ensures !Reach(free, total, env, a) ==> Refusal(free, total, env, b) == Refusal(free, total, env, a)
    decreases b - free
  {
    hide Reach, Refusal;
    ReachUnfolds(free, total, env, a);
    ReachUnfolds(free, total, env, b);
    if b > free {
      ReachMore(free + total, 2 * total, env, a, b);
    }
  }

  lemma ReachStepped(g: Geometry, m: Mem, m': Mem, env: Env, k: nat)
    requires m.meta.total > 0 && m'.meta.total > 0 && OneMore(g, m, m') && Reachable(m.meta, env, Needed(g, m))
    ensures Reachable(m'.meta, env, Demanded(g, m', k)) <==> Reachable(m.meta, env, Demanded(g, m, k + 1))
    ensures Remapped(m'.meta, env, Demanded(g, m', k)) <==> Remapped(m.meta, env, Demanded(g, m, k + 1))
  {
    hide Exact, GrownTotal, Needed, Reach, Refusal, Demanded, FreeSlots, Epp;
    ShapeStep(g, m, m', k);
    ReachTwice(m.meta.freeCount, m.meta.total, env, Needed(g, m), Demanded(g, m', k), m'.meta.freeCount, m'.meta.total);
  }

  lemma {:induction false} DemandsFirst(g: Geometry, m: Mem, n: nat)
    requires |m.blocks| == |m.dirs|
    ensures Demanded(g, m, 0) == 0
    ensures n > 0 ==> Demanded(g, m, n) >= Needed(g, m) == Demanded(g, m, 1)
    ensures Needed(g, m) == 0 ==> Demanded(g, m, n) == 0
    ensures IdsLeft(g, m) > 0 <==> Needed(g, m) > 0
  {
    hide FreeSlots, Needed, MaxDirBlocks;
    NeededBySlots(g, m);
    if FreeSlots(m.dirs) == 0 && |m.blocks| < MaxDirBlocks(g.pageSize) {
      MonusTimes(MaxDirBlocks(g.pageSize), |m.blocks|, Epp(g));
    }
  }

  /** The first call succeeds exactly when one page is obtainable; then k more are obtainable
      exactly when k + 1 were. */
  lemma FirstObtained(g: Geometry, s: Sys, env: Env)
    requires Exact(s.mem.meta) && |s.mem.blocks| == |s.mem.dirs|
    ensures s.mem.meta.total > 0
    ensures AllocProtected(g, s, env).1.Ok? <==> Obtainable(g, s, env, 1)
    ensures AllocProtected(g, s, env).1.Err? ==> AllocProtected(g, s, env).1 == Err(Obstacle(g, s, 0))
  {
    hide AllocProtected, AllocRaws, Exact, Needed, Demanded, IdsLeft, Reach;
    ExactTotal(s.mem.meta);
    AllocProtectedOutcome(g, s, env);
    DemandsFirst(g, s.mem, 1);
    ReachUnfolds(s.mem.meta.freeCount, s.mem.meta.total, env, Needed(g, s.mem));
  }

  lemma ThenObtained(g: Geometry, s: Sys, env: Env, k: nat)
    requires Exact(s.mem.meta) && |s.mem.blocks| == |s.mem.dirs| && AllocProtected(g, s, env).1.Ok?
    ensures
      var s1 := AllocProtected(g, s, env).0;
      && s.mem.meta.total > 0 && s1.mem.meta.total > 0 && s1.mapped
      && Exact(s1.mem.meta) && |s1.mem.blocks| == |s1.mem.dirs|
      && (Obtainable(g, s1, env, k) <==> Obtainable(g, s, env, k + 1))
      && Obstacle(g, s1, k) == Obstacle(g, s, k + 1)
      && (Reachable(s1.mem.meta, env, Demanded(g, s1.mem, k)) <==> Reachable(s.mem.meta, env, Demanded(g, s.mem, k + 1)))
      && (Remapped(s1.mem.meta, env, Demanded(g, s1.mem, k)) <==> Remapped(s.mem.meta, env, Demanded(g, s.mem, k + 1)))
  {
    hide AllocProtected, Exact, Needed, Demanded, IdsLeft, Reachable, Remapped, OneMore;
    FirstObtained(g, s, env);
    CallOneMore(g, s, env);
    var s1 := AllocProtected(g, s, env).0;
    OneMoreParts(g, s.mem, s1.mem);
    ExactTotal(s1.mem.meta);
    ShapeStep(g, s.mem, s1.mem, k);
    DemandsFirst(g, s.mem, 1);
    DemandsFirst(g, s1.mem, k);
    ReachStepped(g, s.mem, s1.mem, env, k);
    ReachNothing(s1.mem.meta, env);
  }

  lemma ReachNothing(m: Meta, env: Env)
    requires m.total > 0
    ensures Reachable(m, env, 0)
  {
  }

  lemma OneMoreParts(g: Geometry, m: Mem, m': Mem)
    requires OneMore(g, m, m')
    ensures Exact(m'.meta) && |m'.blocks| == |m'.dirs|
  {
  }

  // ── The single calls, counted ──────────────────────────────────────────────

  lemma BeginConditions(g: Geometry, s: Sys, env: Env, n: nat)
    requires s.mem.meta.total > 0
    ensures Obtainable(g, Begin(s), env, n) <==> Obtainable(g, s, env, n)
    ensures Obstacle(g, Begin(s), n) == Obstacle(g, s, n)
  {
    hide Reachable, Demanded, IdsLeft, Needed;
  }

  /** The first of the calls fails. */
  lemma FirstFails(g: Geometry, s: Sys, env: Env, n: nat)
    requires Exact(s.mem.meta) && |s.mem.blocks| == |s.mem.dirs| && n > 0 && AllocProtected(g, s, env).1.Err?
    ensures s.mem.meta.total > 0
    ensures !Obtainable(g, s, env, 1) && !Obtainable(g, s, env, n)
    ensures
      var s' := AllocProtected(g, s, env).0;
      s.mapped ==>
        && (s'.mapped <==> Reachable(s.mem.meta, env, Demanded(g, s.mem, n)) || Remapped(s.mem.meta, env, Demanded(g, s.mem, n)))
        && (!s'.mapped ==> s'.mem.meta.freeCount == 0)
  {
    hide AllocProtected, AllocRaws, Exact, Needed, Demanded, IdsLeft, Reach, Refusal, TookPages;
    var m := s.mem.meta;
    ExactTotal(m);
    FirstObtained(g, s, env);
    DemandsFirst(g, s.mem, n);
    AllocProtectedOutcome(g, s, env);
    RawsOutcome(g, s, env, Needed(g, s.mem));
    ReachMore(m.freeCount, m.total, env, Needed(g, s.mem), Demanded(g, s.mem, n));
    ReachUnfolds(m.freeCount, m.total, env, Demanded(g, s.mem, n));
  }

  /** Single calls in a row: they obtain as many pages as could be said before the first of them,
      and what stops them, and whether it costs the mapping, could be said as well. */
  lemma {:induction false} AllocEachOutcome(g: Geometry, s: Sys, env: Env, n: nat)
    requires Exact(s.mem.meta) && |s.mem.blocks| == |s.mem.dirs|
    ensures s.mem.meta.total > 0
    ensures
      var (s', ids, r) := AllocEach(g, s, env, n);
      var k, d := |ids|, Demanded(g, s.mem, n);
      && k <= n && Obtainable(g, s, env, k) && (k < n ==> !Obtainable(g, s, env, k + 1))
      && (r.Ok? <==> k == n) && (r.Ok? <==> Obtainable(g, s, env, n))
      && (r.Err? ==> r == Err(Obstacle(g, s, k)))
      && (k > 0 <==> n > 0 && Obtainable(g, s, env, 1))
      && (n > 0 && (s.mapped || k > 0) ==>
            && (s'.mapped <==> Reachable(s.mem.meta, env, d) || Remapped(s.mem.meta, env, d))
            && (!s'.mapped ==> r.Err? && s'.mem.meta.freeCount == 0))
    decreases n
  {
    hide *;
    ExactTotal(s.mem.meta);
    AllocEachUnfolds(g, s, env, n);
    NoneObtained(g, s, env);
    if n > 0 {
      var t := Begin(s);
      BeginFrame(s);
      BeginConditions(g, s, env, n);
      BeginConditions(g, s, env, 1);
      BeginConditions(g, s, env, 0);
      var (s1, r) := AllocProtected(g, t, env);
      FirstObtained(g, t, env);
      if r.Ok? {
        ThenObtained(g, t, env, n - 1);
        AllocEachUnfolds(g, s1, env, n - 1);
        AllocEachOutcome(g, s1, env, n - 1);
        var k := |AllocEach(g, s1, env, n - 1).1|;
        ThenObtained(g, t, env, k);
        ThenObtained(g, t, env, k + 1);
        BeginConditions(g, s, env, k + 1);
        BeginConditions(g, s, env, k + 2);
        ReachNone(g, s1.mem, env);
      } else {
        FirstFails(g, t, env, n);
      }
    }
  }

  lemma NoneObtained(g: Geometry, s: Sys, env: Env)
    requires s.mem.meta.total > 0
    ensures Obtainable(g, s, env, 0)
  {
  }

  lemma ReachNone(g: Geometry, m: Mem, env: Env)
    requires m.meta.total > 0
    ensures Reachable(m.meta, env, Demanded(g, m, 0))
  {
  }

  // ── The bulk call ──────────────────────────────────────────────────────────

  lemma FreedInMemory(g: Geometry, s: Sys, id: nat)
    requires |s.mem.blocks| == |s.mem.dirs| && !s.mapped
    ensures
      var s' := FreeProtected(g, s, id).0;
      s'.mem.meta == s.mem.meta && !s'.mapped
  {
    hide FreeProtected, Commit, CommitDir, Unmark, InUse, BlockOf, SlotOf;
    if InUse(g, s.mem, id) {
      InUseHasEntry(g, s.mem, id);
      FreeProtectedSteps(g, s, id);
    } else {
      FreeNotInUse(g, s, id);
    }
  }

  /** Without a mapping the rollback frees no page of the bitmap. */
  lemma {:induction false} RollbackFreesNothing(g: Geometry, s: Sys, ids: seq<nat>)
    requires |s.mem.blocks| == |s.mem.dirs| && !s.mapped
    ensures FreeAnyway(g, s, ids).mem.meta == s.mem.meta
    decreases |ids|
  {
    hide FreeProtected;
    if ids != [] {
      FreedInMemory(g, Begin(s), ids[0]);
      RollbackFreesNothing(g, FreeProtected(g, Begin(s), ids[0]).0, ids[1..]);
    }
  }

  /** The ids obtained: each was the smallest unused one in its turn, and there are as many as were
      obtainable, up to n. */
  ghost predicate Obtained(g: Geometry, s: Sys, env: Env, n: nat, shown: set<nat>, ids: seq<nat>)
    requires s.mem.meta.total > 0
  {
    && SmallestInTurn(shown, ids)
    && |ids| <= n && Obtainable(g, s, env, |ids|) && (|ids| < n ==> !Obtainable(g, s, env, |ids| + 1))
  }

  /** Allocated and given back, while the file was mapped. */
  lemma Undone(v: View, ids: seq<nat>, v1: View, v': View)
    requires AddedAll(v, ids, v1) && RolledBack(v1, ids, v') && v'.mapped
    ensures v'.shown == v.shown && Lands(v, {}, v'.pages) && forall id :: id in ids ==> id !in v'.pages
  {
    ToSetOf(ids);
    InTurnFresh(v.shown, ids);
    assert v.shown + ToSet(ids) - ToSet(ids) == v.shown;
  }

  /** Allocated and hidden again, when it was not. */
  lemma Hidden(v: View, ids: seq<nat>, v1: View, v': View)
    requires AddedAll(v, ids, v1) && RolledBack(v1, ids, v') && !v'.mapped
    ensures v'.shown == v.shown && Lands(v, ToSet(ids), v'.pages)
    ensures forall id :: id in ids ==> id in v'.pages && v'.pages[id] == None
  {
    ToSetOf(ids);
    InTurnFresh(v.shown, ids);
    assert v.shown + ToSet(ids) - ToSet(ids) == v.shown;
  }

  lemma ViewMapped(g: Geometry, s: Sys, v: View)
    requires Shows(g, s, v)
    ensures v.mapped == s.mapped && Exact(s.mem.meta) && s.mem.meta.total > 0
  {
    hide Steady, InUse, Exact, Consistent;
    SteadyMeta(g, s, v.pages);
    ConsistentMeta(g, s.mem);
  }

  /** `alloc_protected_bulk`, from what is known before the call. It succeeds exactly when that many
      pages are obtainable, and allocates one after the other the smallest unused ids. When it
      fails, no more ids are in use than before. The pages it had obtained are gone from the file
      too, as documented, unless the growth that failed cost the mapping after the first page:
      then a reopening finds every one of them, the smallest unused ids as far as pages could be
      had, and in memory no page is free any more. */
  lemma AllocProtectedBulkExact(g: Geometry, s: Sys, env: Env, n: nat, v: View) returns (v': View, ids: seq<nat>)
    requires Shows(g, s, v) && |s.mem.blocks| == |s.mem.dirs| && RoomForEach(g, s, env, n)
    requires s.mem.meta.generation + 2 * n < U64_LIMIT
    ensures s.mem.meta.total > 0 && Obtained(g, s, env, n, v.shown, ids)
    ensures
      var (s', r) := AllocProtectedBulk(g, s, env, n);
      && Shows(g, s', v')
      && r == (if Obtainable(g, s, env, n) then Ok(ids) else Err(Obstacle(g, s, |ids|)))
      && (r.Ok? ==> |ids| == n && AddedAll(v, ids, v'))
      && (r.Err? ==>
            && v'.shown == v.shown
            && ((exists id :: id in ids && id in v'.pages) <==> Strands(g, s, env, n))
            && (!Strands(g, s, env, n) ==> Lands(v, {}, v'.pages)))
      && (Strands(g, s, env, n) ==>
            && r.Err? && !v'.mapped && ids != [] && s'.mem.meta.freeCount == 0
            && Lands(v, ToSet(ids), v'.pages) && forall id :: id in ids ==> id in v'.pages && v'.pages[id] == None)
  {
    hide *;
    ViewMapped(g, s, v);
    var v1;
    v1, v' := AllocProtectedBulkViews(g, s, env, n, v);
    AllocEachOutcome(g, s, env, n);
    var s1, q := AllocEach(g, s, env, n).0, AllocEach(g, s, env, n).2;
    ids := AllocEach(g, s, env, n).1;
    ViewMapped(g, AllocProtectedBulk(g, s, env, n).0, v');
    ViewMapped(g, s1, v1);
    AddedInTurn(v, ids, v1);
    StrandsParts(g, s, env, n);
    ObtainedFolds(g, s, env, n, v.shown, ids);
    if q.Err? {
      RolledMapping(v1, ids, v');
      if v'.mapped {
        Undone(v, ids, v1, v');
      } else {
        Hidden(v, ids, v1, v');
        RollbackFreesNothing(g, s1, ids);
        if ids == [] {
          assert ToSet(ids) == {} by {
            ToSetOf(ids);
          }
        } else {
          assert ids[0] in ids;
        }
      }
    }
  }

  lemma StrandsParts(g: Geometry, s: Sys, env: Env, n: nat)
    requires s.mem.meta.total > 0
    ensures
      var d := Demanded(g, s.mem, n);
      Strands(g, s, env, n) <==>
        n > 0 && Obtainable(g, s, env, 1) && !Reachable(s.mem.meta, env, d) && !Remapped(s.mem.meta, env, d)
  {
    hide Obtainable, Remapped;
  }

  lemma ObtainedFolds(g: Geometry, s: Sys, env: Env, n: nat, shown: set<nat>, ids: seq<nat>)
    requires s.mem.meta.total > 0 && SmallestInTurn(shown, ids)
    requires |ids| <= n && Obtainable(g, s, env, |ids|) && (|ids| < n ==> !Obtainable(g, s, env, |ids| + 1))
    ensures Obtained(g, s, env, n, shown, ids)
  {
    hide Obtainable, SmallestInTurn;
  }

  lemma AddedInTurn(v: View, ids: seq<nat>, v1: View)
    requires AddedAll(v, ids, v1)
    ensures SmallestInTurn(v.shown, ids)
  {
  }

  lemma RolledMapping(v: View, ids: seq<nat>, v': View)
    requires RolledBack(v, ids, v')
    ensures v'.mapped == v.mapped
  {
  }

  // ── Room, before the call ──────────────────────────────────────────────────

  lemma {:induction false} GrownTwice(free: nat, total: nat, a: nat, b: nat, free': nat, total': nat)
    requires total > 0 && total' == GrownTotal(free, total, a) && free' + a + total == free + total'
    ensures GrownTotal(free', total', b) == GrownTotal(free, total, a + b)
    decreases a - free, a
  {
    hide GrownTotal;
    GrownUnfolds(free, total, a);
    if a <= free {
      GrownLess(free, total, a, b);
    } else {
      GrownUnfolds(free, total, a + b);
      GrownTwice(free + total, 2 * total, a, b, free', total');
    }
  }

  lemma {:induction false} GrownLess(free: nat, total: nat, a: nat, b: nat)
    requires total > 0 && a <= free
    ensures GrownTotal(free - a, total, b) == GrownTotal(free, total, a + b)
    decreases a
  {
    hide GrownTotal;
    if a > 0 {
      GrownShift(free, total, a + b);
      GrownLess(free - 1, total, a - 1, b);
    }
  }

  lemma CapacityStepped(g: Geometry, m: Mem, m': Mem, k: nat)
    requires OneMore(g, m, m') && Capacity(g, m.meta, Demanded(g, m, k + 1))
    ensures Capacity(g, m'.meta, Demanded(g, m', k))
  {
    hide Exact, GrownTotal, Needed, Demanded, FreeSlots, Epp, Room;
    ShapeStep(g, m, m', k);
    ExactTotal(m'.meta);
    GrownTwice(m.meta.freeCount, m.meta.total, Needed(g, m), Demanded(g, m', k), m'.meta.freeCount, m'.meta.total);
  }

  /** Room for the pages that n calls in a row take is room for each of them. */
  lemma {:induction false} DemandIsRoom(g: Geometry, s: Sys, env: Env, n: nat)
    requires Exact(s.mem.meta) && |s.mem.blocks| == |s.mem.dirs|
    requires Capacity(g, s.mem.meta, Demanded(g, s.mem, n))
    ensures RoomForEach(g, s, env, n)
    decreases n
  {
    hide *;
    if n > 0 {
      BeginFrame(s);
      DemandsFirst(g, s.mem, n);
      CapacityLess(g, s.mem.meta, Demanded(g, s.mem, n), Needed(g, s.mem));
      CallOneMore(g, Begin(s), env);
      var (s1, r) := AllocProtected(g, Begin(s), env);
      if r.Ok? {
        OneMoreParts(g, s.mem, s1.mem);
        CapacityStepped(g, s.mem, s1.mem, n - 1);
        DemandIsRoom(g, s1, env, n - 1);
      }
    }
    RoomFolds(g, s, env, n);
  }

  // ── A call that strands a page ─────────────────────────────────────────────

  lemma SixPages(g: Geometry, s: Sys)
    requires s.mem == InitialMem() && s.mem.meta.freeCount == 1 && s.mem.meta.total == 4 && s.mapped
    ensures Demanded(g, s.mem, 1) == 4 && Demanded(g, s.mem, 2) == 6 && IdsLeft(g, s.mem) > 1
    ensures Obtainable(g, s, Limits(16, 8), 1) && !Obtainable(g, s, Limits(16, 8), 2)
    ensures Strands(g, s, Limits(16, 8), 2) && Obstacle(g, s, 1) == Io
    ensures Capacity(g, s.mem.meta, Demanded(g, s.mem, 2))
  {
    hide NewMeta;
    MonusTimes(MaxDirBlocks(g.pageSize), 0, Epp(g));
    assert Demands(g, Epp(g) - 1, 1, 1) == 2;
  }

  /** Two protected pages on a new file that can be doubled once and extended, but not mapped, a
      second time: the call fails, no page is shown, and a reopening finds page 0. */
  lemma StrandingCall(g: Geometry) returns (v': View)
    ensures |InitialMem().blocks| == |InitialMem().dirs|
    ensures
      var (s', r) := AllocProtectedBulk(g, Created(g), Limits(16, 8), 2);
      && Shows(g, s', v') && r == Err(Io) && !v'.mapped && v'.shown == {} && 0 in v'.pages && v'.pages[0] == None
      && s'.mem.meta.freeCount == 0
  {
    hide *;
    var s, env := Created(g), Limits(16, 8);
    CreatedReady(g);
    CreatedFacts(g);
    BootShows(g, s, map[]);
    TakenAtFirst();
    TakenFree(s.mem.meta, 4, 3);
    TakenTotal(s.mem.meta, 4, 3);
    SixPages(g, s);
    DemandIsRoom(g, s, env, 2);
    var ids;
    v', ids := AllocProtectedBulkExact(g, s, env, 2, Reopened(map[]));
    ObtainedInTurn(g, s, env, 2, {}, ids);
    FirstIsZero(ids);
  }

  lemma CreatedFacts(g: Geometry)
    ensures
      var s := Created(g);
      && s.mem == InitialMem() && s.mem == s.dur && s.mapped && s.mem.meta == NewMeta(4)
      && |s.mem.blocks| == |s.mem.dirs| == 0
    ensures Reopened(map[]).shown == {} && 4 < U64_LIMIT
  {
    hide InitialFile, NewMeta;
  }

  lemma ObtainedInTurn(g: Geometry, s: Sys, env: Env, n: nat, shown: set<nat>, ids: seq<nat>)
    requires s.mem.meta.total > 0 && Obtained(g, s, env, n, shown, ids)
    ensures SmallestInTurn(shown, ids)
    ensures |ids| <= n && Obtainable(g, s, env, |ids|) && (|ids| < n ==> !Obtainable(g, s, env, |ids| + 1))
  {
    hide Obtainable, SmallestInTurn;
  }

  lemma FirstIsZero(ids: seq<nat>)
    requires SmallestInTurn({}, ids) && ids != []
    ensures ids[0] == 0 && 0 in ids
  {
    hide SmallestInTurn;
    var none: set<nat> := {};
    FirstOfTurn(none, ids);
    assert ids[0] == 0 || 0 in none;
  }

  lemma FirstOfTurn(shown: set<nat>, ids: seq<nat>)
    requires SmallestInTurn(shown, ids) && ids != []
    ensures SmallestUnused(shown, ids[0])
  {
  }
}
