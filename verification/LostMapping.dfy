/** After a growth that loses the mapping. The documentation calls the pager unusable until it
    is reopened; these are the exact conditions under which the code agrees, call by call, and
    what the calls made in between do to the generation and to the bitmap. */
module LostMapping {
  import opened Bytes
  import opened Results
  import opened Metadata
  import opened Layout
  import opened Sorting
  import opened PagerSpec
  import opened Safety
  import opened RawAllocation
  import opened Entries
  import opened Operations
  import opened Bulk
  import opened Runs

  // ── Growth, exactly ────────────────────────────────────────────────────────

  lemma GrowOutcome(g: Geometry, s: Sys, env: Env)
    ensures
      var (s', r) := Grow(g, s, env);
      var total := 2 * s.mem.meta.total;
      && (r == if env(total).Grown? then Ok(()) else Err(Io))
      && (r.Ok? ==> s'.mapped && s'.mem.meta == GrowTo(s.mem.meta, total))
      && (r.Err? ==> s'.mem == s.mem && s'.mapped == (env(total) == Refused(true)))
  {
    hide GrowTo;
  }

  /** What a growth leaves of the file: a refused length changes nothing, a refused mapping leaves
      the file extended unless it can be cut back, and new pages are zero. */
  lemma GrowFile(g: Geometry, s: Sys, env: Env)
    requires s.mem.meta.total <= |s.disk.mapped| == |s.disk.durable|
    ensures
      var n, before, d := s.mem.meta.total, s.disk, Grow(g, s, env).0.disk;
      && (env(2 * n).Refused? ==> d == before)
      && (env(2 * n) == NotMapped(true) ==> |d.mapped| == |d.durable| == n)
      && (env(2 * n) == NotMapped(false) || env(2 * n).Grown? ==> |d.mapped| == |d.durable| == 2 * n)
      && (forall p :: 0 <= p < n ==> d.mapped[p] == before.mapped[p] && d.durable[p] == before.durable[p])
      && (env(2 * n).Grown? ==>
            forall p :: |before.mapped| <= p < 2 * n ==> d.mapped[p] == d.durable[p] == Zeros(g.pageSize))
  {
    hide GrowTo;
  }

  lemma RoomAfterGrowth(m: Meta)
    requires Exact(m)
    ensures FreeSlot(m).None? <==> m.freeCount == 0
    ensures Exact(GrowTo(m, 2 * m.total)) && FreeSlot(GrowTo(m, 2 * m.total)).Some?
    ensures AllocatedSet(GrowTo(m, 2 * m.total)) == AllocatedSet(m)
    ensures GrowTo(m, 2 * m.total).freeCount == m.freeCount + m.total && GrowTo(m, 2 * m.total).total == 2 * m.total
  {
    hide FreeSlot, GrowTo, AllocatedSet, BitAt;
    FreeSlotIsSmallest(m);
    GrowKeepsAllocated(m, 2 * m.total);
    GrowTotals(m, 2 * m.total);
    FreeSlotIsSmallest(GrowTo(m, 2 * m.total));
  }

  /** Marking the slot found, in the bitmap as it is or grown. */
  lemma MarkFound(m: Meta, m1: Meta)
    requires Exact(m1) && FreeSlot(m1).Some? && AllocatedSet(m1) == AllocatedSet(m) && m.total <= m1.total
    ensures
      var id := FreeSlot(m1).value;
      && TookPage(m, Mark(m1, id), id) && Exact(Mark(m1, id))
      && Mark(m1, id).freeCount + 1 == m1.freeCount && Mark(m1, id).total == m1.total
  {
    hide FreeSlot, Mark, AllocatedSet, BitAt;
    FreeSlotIsSmallest(m1);
    var id := FreeSlot(m1).value;
    MarkAllocates(m1, id);
    InAllocatedSet(m1, id);
    ReservedTaken(m1, id);
  }

  /** One raw allocation on an exact bitmap, mapped or not. */
  lemma RawOutcome(g: Geometry, s: Sys, env: Env)
    requires Exact(s.mem.meta)
    ensures
      var (s', r) := AllocRaw(g, s, env);
      var m, total := s.mem.meta, 2 * s.mem.meta.total;
      && (r.Ok? ==> TookPage(m, s'.mem.meta, r.value) && Exact(s'.mem.meta))
      && (if m.freeCount > 0 then
            && r.Ok? && FreeSlot(m) == Some(r.value) && s'.mapped == s.mapped
            && s'.mem.meta.freeCount + 1 == m.freeCount && s'.mem.meta.total == m.total
          else if env(total).Grown? then
            && r.Ok? && FreeSlot(GrowTo(m, total)) == Some(r.value) && s'.mapped
            && s'.mem.meta.freeCount + 1 == m.total && s'.mem.meta.total == total
          else
            && r == Err(Io) && s'.mem == s.mem && s'.mapped == (env(total) == Refused(true)))
  {
    hide FreeSlot, GrowTo, Mark, Grow, Exact, AllocatedSet, TookPage;
    var m := s.mem.meta;
    RoomAfterGrowth(m);
    GrowOutcome(g, s, env);
    if m.freeCount > 0 {
      MarkFound(m, m);
    } else {
      MarkFound(m, GrowTo(m, 2 * m.total));
    }
  }

  /** The file can be doubled until n pages are free, every growth on the way granted. */
  predicate Reach(free: nat, total: nat, env: Env, n: nat)
    requires total > 0
    decreases n - free
  {
    n <= free || (env(2 * total).Grown? && Reach(free + total, 2 * total, env, n))
  }

  /** The answer to the growth that is not granted. */
  function Refusal(free: nat, total: nat, env: Env, n: nat): Answer
    requires total > 0 && !Reach(free, total, env, n)
    decreases n - free
  {
    if env(2 * total).Grown? then Refusal(free + total, 2 * total, env, n) else env(2 * total)
  }

  predicate Reachable(m: Meta, env: Env, n: nat)
    requires m.total > 0
  {
    Reach(m.freeCount, m.total, env, n)
  }

  /** A growth is refused by `set_len`, and the file as it stood can be mapped again. */
  predicate Remapped(m: Meta, env: Env, n: nat)
    requires m.total > 0
  {
    !Reachable(m, env, n) && Refusal(m.freeCount, m.total, env, n) == Refused(true)
  }

  lemma ExactTotal(m: Meta)
    requires Exact(m)
    ensures m.total >= 4
  {
  }

  /** Any number of raw allocations: they all succeed exactly when the file can be doubled until
      enough pages are free, and the file ends up mapped exactly when it was and no growth was
      needed, or the growth was granted, or it was refused in the one way that lets the file be
      mapped as it was. Those that fail leave no page free. */
  lemma {:induction false} RawsOutcome(g: Geometry, s: Sys, env: Env, n: nat)
    requires Exact(s.mem.meta)
    ensures s.mem.meta.total > 0
    ensures
      var (s', ids, r) := AllocRaws(g, s, env, n);
      var m := s.mem.meta;
      && Exact(s'.mem.meta) && TookPages(m, s'.mem.meta, ids)
      && (n <= m.freeCount ==> Reachable(m, env, n) && s'.mem.meta.total == m.total)
      && (r.Ok? <==> Reachable(m, env, n))
      && (r.Ok? ==>
            && s'.mem.meta.total == GrownTotal(m.freeCount, m.total, n)
            && s'.mem.meta.freeCount + n + m.total == m.freeCount + s'.mem.meta.total)
      && (r.Err? ==> r == Err(Io) && s'.mem.meta.freeCount == 0)
      && s'.mapped == (if n <= m.freeCount then s.mapped else Reachable(m, env, n) || Remapped(m, env, n))
    decreases n
  {
    hide AllocRaw, Exact, TookPage, TookPages, AllocatedSet, GrownTotal, Reach, Refusal;
    var m := s.mem.meta;
    ExactTotal(m);
    TookNothing(m);
    ReachStep(m.freeCount, m.total, env, n);
    GrownStep(m.freeCount, m.total, n);
    if n > 0 {
      RawOutcome(g, s, env);
      var (s1, r) := AllocRaw(g, s, env);
      if r.Ok? {
        RawsOutcome(g, s1, env, n - 1);
        var (s2, ids, r2) := AllocRaws(g, s1, env, n - 1);
        TookMore(m, s1.mem.meta, s2.mem.meta, r.value, ids);
      }
    }
  }

  /** One page less to take, and one less free. */
  lemma {:induction false} ReachShift(free: nat, total: nat, env: Env, n: nat)
    requires total > 0 && free > 0 && n > 0
    ensures Reach(free - 1, total, env, n - 1) <==> Reach(free, total, env, n)
    ensures !Reach(free, total, env, n) ==> Refusal(free - 1, total, env, n - 1) == Refusal(free, total, env, n)
    decreases n - free
  {
    if n > free {
      ReachShift(free + total, 2 * total, env, n);
    }
  }

  /** What one raw allocation does to the growths that n need. */
  lemma ReachStep(free: nat, total: nat, env: Env, n: nat)
    requires total > 0
    ensures n <= free ==> Reach(free, total, env, n)
    ensures n > free > 0 ==>
              && (Reach(free - 1, total, env, n - 1) <==> Reach(free, total, env, n))
              && (!Reach(free, total, env, n) ==> Refusal(free - 1, total, env, n - 1) == Refusal(free, total, env, n))
    ensures n > free == 0 && env(2 * total).Grown? ==>
              && (Reach(total - 1, 2 * total, env, n - 1) <==> Reach(free, total, env, n))
              && (!Reach(free, total, env, n) ==>
                    Refusal(total - 1, 2 * total, env, n - 1) == Refusal(free, total, env, n))
              && (n <= total ==> Reach(free, total, env, n))
    ensures n > free && !env(2 * total).Grown? ==>
              !Reach(free, total, env, n) && Refusal(free, total, env, n) == env(2 * total)
  {
    hide Reach, Refusal;
    ReachUnfolds(free, total, env, n);
    if n > free > 0 {
      ReachShift(free, total, env, n);
    } else if n > 0 {
      ReachShift(total, 2 * total, env, n);
      ReachUnfolds(total, 2 * total, env, n);
    }
  }

  lemma ReachUnfolds(free: nat, total: nat, env: Env, n: nat)
    requires total > 0
    ensures Reach(free, total, env, n) <==> n <= free || (env(2 * total).Grown? && Reach(free + total, 2 * total, env, n))
    ensures !Reach(free, total, env, n) ==>
              Refusal(free, total, env, n) ==
              if env(2 * total).Grown? then Refusal(free + total, 2 * total, env, n) else env(2 * total)
  {
  }

  lemma GrownStep(free: nat, total: nat, n: nat)
    requires total > 0
    ensures n <= free ==> GrownTotal(free, total, n) == total
    ensures n > 0 && free > 0 ==> GrownTotal(free - 1, total, n - 1) == GrownTotal(free, total, n)
    ensures n > 0 && free == 0 ==> GrownTotal(total - 1, 2 * total, n - 1) == GrownTotal(free, total, n)
  {
    hide GrownTotal;
    GrownUnfolds(free, total, n);
    if n > 0 && free > 0 {
      GrownShift(free, total, n);
    } else if n > 0 {
      GrownShift(total, 2 * total, n);
    }
  }

  lemma GrownUnfolds(free: nat, total: nat, n: nat)
    requires total > 0
    ensures n <= free ==> GrownTotal(free, total, n) == total
    ensures n > free ==> GrownTotal(free, total, n) == GrownTotal(free + total, 2 * total, n)
  {
  }

  // ── Every call without a mapping ───────────────────────────────────────────

  /** `alloc` without a mapping answers `Unavailable` exactly when a page is free, and succeeds
      exactly when none is and the file can now be doubled and mapped. */
  lemma AllocAfterLoss(g: Geometry, s: Sys, env: Env)
    requires Exact(s.mem.meta) && !s.mapped
    ensures
      var (s', r) := Alloc(g, s, env);
      var free, total := s.mem.meta.freeCount, 2 * s.mem.meta.total;
      && (r.Ok? <==> free == 0 && env(total).Grown?)
      && (r == Err(Unavailable) <==> free > 0)
      && (s'.mapped <==> free == 0 &&
                         (env(total).Grown? || env(total) == Refused(true)))
  {
    hide Exact, AllocRaw, Commit, FreeSlot, GrowTo, TookPage;
    RawOutcome(g, s, env);
    CommitFrame(g, AllocRaw(g, s, env).0);
  }

  predicate Unavailed(r: Reply) {
    match r
    case Unit(u) => u == Err(Unavailable)
    case Id(q) => q == Err(Unavailable)
    case Ids(rs) => rs == Err(Unavailable)
  }

  /** What a call without a mapping needs it for: pages that are free, so that only the commit is
      left to do, an allocated page to release, or a page in range to touch. */
  ghost predicate NeedsMapping(g: Geometry, s: Sys, op: Op) {
    match op
    case OpFree(id) => FIRST_DATA_PAGE <= id && Allocated(s.mem.meta, id)
    case OpFreeBulk(ids) => ids != [] && Freeable(s.mem.meta, ids)
    case OpWriteRegular(id, _) => FIRST_DATA_PAGE <= id < s.mem.meta.total
    case OpFreeProtected(id) => InUse(g, s.mem, id)
    case OpStage(id, _) => InUse(g, s.mem, id)
    case OpWriteProtected(id, _) => InUse(g, s.mem, id)
    case _ => 0 < Demand(g, s.mem, op) <= s.mem.meta.freeCount
  }

  lemma AllocOutcome(g: Geometry, s: Sys, env: Env)
    requires Exact(s.mem.meta) && !s.mapped
    ensures s.mem.meta.total > 0
    ensures
      var (s', r) := Alloc(g, s, env);
      && (r == Err(Unavailable) <==> 0 < s.mem.meta.freeCount)
      && (s'.mapped <==> s.mem.meta.freeCount < 1 && (Reachable(s.mem.meta, env, 1) || Remapped(s.mem.meta, env, 1)))
  {
    hide Exact, Alloc;
    ExactTotal(s.mem.meta);
    AllocAfterLoss(g, s, env);
    ReachUnfolds(s.mem.meta.freeCount, s.mem.meta.total, env, 1);
  }

  lemma AllocBulkOutcome(g: Geometry, s: Sys, env: Env, n: nat)
    requires Exact(s.mem.meta) && !s.mapped
    ensures s.mem.meta.total > 0
    ensures
      var (s', r) := AllocBulk(g, s, env, n);
      && (r == Err(Unavailable) <==> 0 < n <= s.mem.meta.freeCount)
      && (s'.mapped <==> s.mem.meta.freeCount < n && (Reachable(s.mem.meta, env, n) || Remapped(s.mem.meta, env, n)))
  {
    hide Exact, AllocRaws, Commit, UnmarkAll, TookPages, Reachable, Remapped;
    RawsOutcome(g, s, env, n);
    CommitFrame(g, AllocRaws(g, s, env, n).0);
  }

  lemma AllocProtectedOutcome(g: Geometry, s: Sys, env: Env)
    requires Exact(s.mem.meta) && |s.mem.blocks| == |s.mem.dirs|
    ensures s.mem.meta.total > 0
    ensures
      var (s', r) := AllocProtected(g, s, env);
      var m, n := s.mem.meta, Needed(g, s.mem);
      && (n == 0 ==> s' == s && r == Err(DirectoryFull))
      && (n > 0 ==>
            if n <= m.freeCount then s'.mapped == s.mapped && (r.Ok? <==> s.mapped) && (r.Err? ==> r == Err(Unavailable))
            else if Reachable(m, env, n) then r.Ok? && s'.mapped
            else r == Err(Io) && s'.mapped == Remapped(m, env, n) && s' == AllocRaws(g, s, env, n).0)
  {
    hide Exact, AllocRaws, Commit, CommitDir, AllocProtected, AllocInBlock, AllocNewBlock, FirstFreeEntry, NewEntry,
         Rewritten, AppendBlock, IdAt, TookPages, Reachable, Remapped;
    ExactTotal(s.mem.meta);
    AllocProtectedCases(g, s, env);
    var b := FirstOpenBlock(s.mem.dirs);
    if b < |s.mem.dirs| {
      RawsOutcome(g, s, env, 2);
      CommitFrame(g, AllocRaws(g, s, env, 2).0);
      AllocInBlockSteps(g, s, env, b);
    } else if |s.mem.blocks| < MaxDirBlocks(g.pageSize) {
      RawsOutcome(g, s, env, 4);
      CommitFrame(g, AllocRaws(g, s, env, 4).0);
      AllocNewBlockSteps(g, s, env);
    }
  }

  lemma FreeBulkOutcome(g: Geometry, s: Sys, ids: seq<nat>)
    requires !s.mapped
    ensures
      var (s', r) := FreeBulk(g, s, ids);
      !s'.mapped && (r == Err(Unavailable) <==> ids != [] && Freeable(s.mem.meta, ids))
  {
    hide Commit, UnmarkAll, Freeable, Sort, AdjacentEqual, CheckIds;
    SortFreeable(s.mem.meta, ids);
    CheckIdsError(s.mem.meta, Sort(ids, IdLeq));
    CommitFrame(g, WithMeta(s, UnmarkAll(s.mem.meta, Sort(ids, IdLeq))));
  }

  lemma {:induction false} CheckIdsError(m: Meta, ids: seq<nat>)
    ensures CheckIds(m, ids) != Err(Unavailable)
  {
    hide Allocated;
    if ids != [] {
      CheckIdsError(m, ids[1..]);
    }
  }

  lemma ProtectedOutcome(g: Geometry, s: Sys, op: Op)
    requires !s.mapped && |s.mem.blocks| == |s.mem.dirs|
    requires op.OpFreeProtected? || op.OpStage? || op.OpWriteProtected?
    ensures
      var (s', r) := Do(g, s, op);
      !s'.mapped && (Unavailed(r) <==> InUse(g, s.mem, op.id))
  {
    hide FreeProtected, CommitWrite, InUse;
    if InUse(g, s.mem, op.id) {
      FreedEntries(g, s, op.id);
      FreeProtectedSteps(g, s, op.id);
    } else {
      FreeNotInUse(g, s, op.id);
    }
  }

  lemma FreeOutcome(g: Geometry, s: Sys, id: nat)
    requires !s.mapped
    ensures
      var (s', r) := Free(g, s, id);
      !s'.mapped && (r == Err(Unavailable) <==> FIRST_DATA_PAGE <= id && Allocated(s.mem.meta, id))
  {
    hide Commit, Unmark, Allocated;
    CommitFrame(g, WithMeta(s, Unmark(s.mem.meta, id)));
  }

  /** Every call on a pager without a mapping: exactly when it answers `Unavailable`, and exactly
      when the file is mapped again afterwards. Only calls that allocate more pages than are free
      bring the mapping back, and they never answer `Unavailable`. */
  lemma CallAfterLoss(g: Geometry, s: Sys, op: Op)
    requires Exact(s.mem.meta) && |s.mem.blocks| == |s.mem.dirs| && !s.mapped
    ensures s.mem.meta.total > 0
    ensures
      var (s', r) := Do(g, Begin(s), op);
      && (Unavailed(r) <==> NeedsMapping(g, s, op))
      && (s'.mapped <==>
            && (op.OpAlloc? || op.OpAllocBulk? || op.OpAllocProtected?)
            && s.mem.meta.freeCount < Demand(g, s.mem, op)
            && (Reachable(s.mem.meta, op.env, Demand(g, s.mem, op)) || Remapped(s.mem.meta, op.env, Demand(g, s.mem, op))))
  {
    hide Exact, Alloc, AllocBulk, Free, FreeBulk, AllocProtected, FreeProtected, StageWrite, WriteProtected, Reachable,
         Remapped, Needed, InUse, Allocated, Freeable;
    var t := Begin(s);
    ExactTotal(s.mem.meta);
    match op
    case OpAlloc(env) => AllocOutcome(g, t, env);
    case OpAllocBulk(env, count) => AllocBulkOutcome(g, t, env, count);
    case OpAllocProtected(env) => AllocProtectedOutcome(g, t, env);
    case OpFree(id) => FreeOutcome(g, t, id);
    case OpFreeBulk(ids) => FreeBulkOutcome(g, t, ids);
    case OpWriteRegular(id, page) =>
    case _ => ProtectedOutcome(g, t, op);
  }

  // ── Pages a failed alloc_bulk keeps ────────────────────────────────────────

  lemma TakenSize(m: Meta, m': Meta, ids: seq<nat>)
    requires TookPages(m, m', ids)
    ensures |AllocatedSet(m')| == |AllocatedSet(m)| + |ids|
  {
    hide AllocatedSet;
    DistinctSize(ids);
    assert AllocatedSet(m) !! ToSet(ids);
  }

  lemma FreeLeft(m: Meta, m': Meta, ids: seq<nat>)
    requires Exact(m) && Exact(m') && TookPages(m, m', ids) && m'.total == m.total
    ensures m'.freeCount + |ids| == m.freeCount
    ensures ids != [] ==> AllocatedSet(m') != AllocatedSet(m)
  {
    hide TookPages, AllocatedSet;
    TakenSize(m, m', ids);
  }

  /** `alloc_bulk` fails in two ways. When the file cannot be doubled until enough pages are free,
      it leaves no page allocated, as documented. When enough are free and the file is not mapped,
      it answers `Unavailable` and keeps them all. */
  lemma FailedBulkKeeps(g: Geometry, s: Sys, env: Env, n: nat)
    requires Exact(s.mem.meta)
    ensures s.mem.meta.total > 0
    ensures
      var (s', r) := AllocBulk(g, s, env, n);
      var m, kept := s.mem.meta, !s.mapped && 0 < n <= s.mem.meta.freeCount;
      && (r.Err? <==> kept || !Reachable(m, env, n))
      && (r.Err? ==> (AllocatedSet(s'.mem.meta) != AllocatedSet(m) <==> kept))
      && (kept ==> r == Err(Unavailable) && s'.mem.meta.freeCount + n == m.freeCount)
  {
    hide Exact, AllocRaws, Commit, UnmarkAll, TookPages, Reachable, Remapped, AllocatedSet, Freeable;
    RawsOutcome(g, s, env, n);
    var (s1, ids, r) := AllocRaws(g, s, env, n);
    CommitFrame(g, s1);
    GenerationOnly(s1.mem.meta);
    if n <= s.mem.meta.freeCount {
      FreeLeft(s.mem.meta, s1.mem.meta, ids);
    } else {
      TookFreeable(s.mem.meta, s1.mem.meta, ids);
      UnmarkAllFrees(s1.mem.meta, ids);
    }
  }

  // ── Pagers that come back ──────────────────────────────────────────────────

  /** An exact bitmap of so many pages of which the first n are taken. */
  ghost predicate Taken(m: Meta, total: nat, n: nat) {
    Exact(m) && m.total == total && AllocatedSet(m) == Range(n)
  }

  lemma TakenFree(m: Meta, total: nat, n: nat)
    requires Taken(m, total, n) && n <= total
    ensures m.freeCount == total - n
    ensures n < total ==> FreeSlot(m) == Some(n) && Taken(Mark(m, n), total, n + 1)
    ensures n == total ==> FreeSlot(m).None?
    ensures Taken(NextGeneration(m), total, n)
    ensures Taken(GrowTo(m, 2 * total), 2 * total, n)
  {
    hide FreeSlot, BitAt, Mark, GrowTo;
    FreeSlotIsSmallest(m);
    BumpExact(m);
    GrowKeepsAllocated(m, 2 * total);
    GrowTotals(m, 2 * total);
    if n < total {
      FirstIsFree(m, total, n);
      MarkAllocates(m, n);
      assert Range(n) + {n} == Range(n + 1);
    }
  }

  lemma FirstIsFree(m: Meta, total: nat, n: nat)
    requires Taken(m, total, n) && n < total
    ensures FreeSlot(m) == Some(n) && !Allocated(m, n)
  {
    hide FreeSlot, BitAt;
    FreeSlotIsSmallest(m);
    assert n in Range(total) && n !in Range(n);
    var v := FreeSlot(m).value;
    InAllocatedSet(m, v);
    InAllocatedSet(m, n);
  }

  lemma TakenAtFirst()
    ensures Taken(NewMeta(4), 4, 3) && NewMeta(4).generation == 0
  {
    NewMetaExact(4);
    hide NewMeta, AllocatedSet, BitAt;
  }

  /** A raw allocation on such a bitmap. */
  lemma TakenRaw(g: Geometry, s: Sys, env: Env, total: nat, n: nat)
    requires Taken(s.mem.meta, total, n) && 3 <= n <= total
    ensures
      var (s', r) := AllocRaw(g, s, env);
      && s'.mem.active == s.mem.active && s'.mem.meta.generation == s.mem.meta.generation
      && (if n < total then r == Ok(n) && s'.mapped == s.mapped && Taken(s'.mem.meta, total, n + 1)
          else if env(2 * total).Grown? then r == Ok(n) && s'.mapped && Taken(s'.mem.meta, 2 * total, n + 1)
          else r == Err(Io) && s'.mem == s.mem && s'.mapped == (env(2 * total) == Refused(true)))
  {
    hide FreeSlot, Mark, GrowTo, Grow, Taken, Exact, AllocatedSet;
    TakenFree(s.mem.meta, total, n);
    TakenTotal(s.mem.meta, total, n);
    GrowOutcome(g, s, env);
    RawKeepsDirs(g, s, env);
    RawGeneration(g, s, env);
    if n == total {
      TakenFree(GrowTo(s.mem.meta, 2 * total), 2 * total, n);
    }
  }

  lemma TakenTotal(m: Meta, total: nat, n: nat)
    requires Taken(m, total, n)
    ensures m.total == total && Exact(m) && AllocatedSet(m) == Range(n)
  {
  }

  /** `alloc` on such a bitmap. */
  lemma TakenAlloc(g: Geometry, s: Sys, env: Env, total: nat, n: nat)
    requires Taken(s.mem.meta, total, n) && 3 <= n <= total
    ensures
      var (s', r) := Alloc(g, s, env);
      if n == total && !env(2 * total).Grown? then
        && r == Err(Io) && s'.mem == s.mem
        && s'.mapped == (env(2 * total) == Refused(true))
      else
        var committed := n == total || s.mapped;
        && r == (if committed then Ok(n) else Err(Unavailable)) && s'.mapped == committed
        && Taken(s'.mem.meta, if n == total then 2 * total else total, n + 1)
        && s'.mem.meta.generation == s.mem.meta.generation + 1
        && s'.mem.active == if committed then s.mem.active.Other() else s.mem.active
  {
    hide AllocRaw, Commit, Taken;
    TakenRaw(g, s, env, total, n);
    var (s1, r) := AllocRaw(g, s, env);
    CommitFrame(g, s1);
    if r.Ok? {
      var larger := if n == total then 2 * total else total;
      TakenFree(s1.mem.meta, larger, n + 1);
    }
  }

  /** An operating system that lets a file have so many pages and maps so many of them. */
  function Limits(length: nat, mappable: nat): Env {
    (pages: nat) =>
      if pages > length then Refused(pages <= 2 * mappable) else if pages > mappable then NotMapped(true) else Grown
  }

  /** Three calls on a new file: the only page is taken, a growth whose mapping fails leaves
      the pager without one, and the next call nevertheless succeeds with page 4. */
  lemma RevivedPager(g: Geometry)
    ensures
      var (s1, r1) := Alloc(g, Created(g), Limits(4, 4));
      var (s2, r2) := Alloc(g, s1, Limits(8, 4));
      var (s3, r3) := Alloc(g, s2, Limits(8, 8));
      && r1 == Ok(3) && r2 == Err(Io) && !s2.mapped
      && ReadRegular(s2, 3) == Err(Unavailable)
      && r3 == Ok(4) && s3.mapped
  {
    hide Alloc, Taken, InitialFile, NewMeta;
    TakenAtFirst();
    TakenAlloc(g, Created(g), Limits(4, 4), 4, 3);
    var s1 := Alloc(g, Created(g), Limits(4, 4)).0;
    TakenAlloc(g, s1, Limits(8, 4), 4, 4);
    TakenTotal(s1.mem.meta, 4, 4);
    TakenAlloc(g, Alloc(g, s1, Limits(8, 4)).0, Limits(8, 8), 4, 4);
  }

  /** `alloc_bulk` of two pages when one is free and the growth loses the mapping: the page is
      given back. */
  lemma TakenBulk(g: Geometry, s: Sys, env: Env)
    requires Taken(s.mem.meta, 4, 3) && env(8).NotMapped?
    ensures
      var (s', r) := AllocBulk(g, s, env, 2);
      && r == Err(Io) && !s'.mapped && Taken(s'.mem.meta, 4, 3)
      && s'.mem.meta.generation == s.mem.meta.generation && s'.mem.active == s.mem.active
  {
    hide AllocRaw, Commit, Taken, UnmarkAll;
    TakenRaw(g, s, env, 4, 3);
    var s1 := AllocRaw(g, s, env).0;
    TakenRaw(g, s1, env, 4, 4);
    RawsUnfoldTwice(g, s, env);
    UnmarkLast(s1.mem.meta);
    UnmarkAllGeneration(s1.mem.meta, [3]);
  }

  lemma RawsUnfoldTwice(g: Geometry, s: Sys, env: Env)
    requires AllocRaw(g, s, env).1.Ok? && AllocRaw(g, AllocRaw(g, s, env).0, env).1.Err?
    ensures
      var (s1, r1) := AllocRaw(g, s, env);
      var (s2, r2) := AllocRaw(g, s1, env);
      AllocRaws(g, s, env, 2) == (s2, [r1.value], Err(r2.error))
  {
    hide AllocRaw;
    var s1 := AllocRaw(g, s, env).0;
    assert [AllocRaw(g, s, env).1.value] + [] == [AllocRaw(g, s, env).1.value];
    assert AllocRaws(g, s1, env, 1) == (AllocRaw(g, s1, env).0, [], Err(AllocRaw(g, s1, env).1.error));
  }

  lemma UnmarkLast(m: Meta)
    requires Taken(m, 4, 4)
    ensures Taken(UnmarkAll(m, [3]), 4, 3)
  {
    hide BitAt, Unmark, AllocatedSet;
    assert 3 in Range(4);
    InAllocatedSet(m, 3);
    assert Freeable(m, [3]);
    UnmarkAllFrees(m, [3]);
    assert Range(4) - ToSet([3]) == Range(3);
  }

  /** Two calls on a new file, the first of which loses the mapping: the second fails and keeps
      the page it took. */
  lemma KeepingCall(g: Geometry)
    ensures
      var (s1, r1) := AllocBulk(g, Created(g), Limits(8, 4), 2);
      var (s2, r2) := AllocBulk(g, s1, Limits(8, 8), 1);
      && r1 == Err(Io) && AllocatedSet(s1.mem.meta) == Range(3) && s1.mem.meta.freeCount == 1
      && r2 == Err(Unavailable) && AllocatedSet(s2.mem.meta) == Range(4) && s2.mem.meta.freeCount == 0
  {
    hide AllocBulk, Taken, InitialFile, NewMeta, AllocRaw, Commit, AllocatedSet;
    TakenAtFirst();
    TakenBulk(g, Created(g), Limits(8, 4));
    var s1 := AllocBulk(g, Created(g), Limits(8, 4), 2).0;
    TakenFree(s1.mem.meta, 4, 3);
    TakenTotal(s1.mem.meta, 4, 3);
    FailedBulkKeeps(g, s1, Limits(8, 8), 1);
    TakenRaw(g, s1, Limits(8, 8), 4, 3);
    BulkOfOne(g, s1, Limits(8, 8));
    var s2 := AllocRaw(g, s1, Limits(8, 8)).0;
    CommitFrame(g, s2);
    TakenFree(s2.mem.meta, 4, 4);
    TakenTotal(NextGeneration(s2.mem.meta), 4, 4);
  }

  lemma BulkOfOne(g: Geometry, s: Sys, env: Env)
    requires AllocRaw(g, s, env).1.Ok?
    ensures AllocBulk(g, s, env, 1).0 == Commit(g, AllocRaw(g, s, env).0).0
  {
    hide AllocRaw, Commit;
    assert AllocRaws(g, AllocRaw(g, s, env).0, env, 0).0 == AllocRaw(g, s, env).0;
  }

  /** Three calls on a new file after which selector and generation are out of step on a mapped
      pager: the first loses the mapping, the second counts up the generation without committing
      it, the third brings the mapping back and commits. */
  lemma OutOfStep(g: Geometry)
    ensures
      var (s1, r1) := AllocBulk(g, Created(g), Limits(8, 4), 2);
      var (s2, r2) := Alloc(g, s1, Limits(8, 8));
      var (s3, r3) := Alloc(g, s2, Limits(8, 8));
      && r1 == Err(Io) && !s1.mapped
      && r2 == Err(Unavailable) && !s2.mapped && s2.mem.meta.generation == 1
      && r3 == Ok(4) && s3.mapped && s3.mem.active == B && s3.mem.meta.generation == 2
      && !InStep(s3.mem)
  {
    hide Alloc, AllocBulk, Taken, InitialFile, NewMeta;
    TakenAtFirst();
    TakenBulk(g, Created(g), Limits(8, 4));
    var s1 := AllocBulk(g, Created(g), Limits(8, 4), 2).0;
    TakenAlloc(g, s1, Limits(8, 8), 4, 3);
    TakenAlloc(g, Alloc(g, s1, Limits(8, 8)).0, Limits(8, 8), 4, 4);
  }
}
