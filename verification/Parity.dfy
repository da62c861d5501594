/** Selector and generation: when a pager's active metadata page is A exactly at even generations,
    through every run, lost mappings and crashes included. */
module Parity {
  import opened Bytes
  import opened Results
  import opened Metadata
  import opened Layout
  import opened Disks
  import opened Recovery
  import opened Sorting
  import opened PagerSpec
  import opened Ownership
  import opened DirSafety
  import opened RawAllocation
  import opened DirChanges
  import opened Entries
  import opened Operations
  import opened Bulk
  import opened Runs
  import opened LostMapping

  // ── Memory ─────────────────────────────────────────────────────────────────

  /** A commit keeps selector and generation in step, or out of step, exactly when the file is
      mapped: without a mapping it fails after the generation has been counted up. */
  lemma CommitParity(g: Geometry, s: Sys)
    ensures InStep(Commit(g, s).0.mem) <==> (InStep(s.mem) <==> s.mapped)
  {
    hide Commit;
    CommitFrame(g, s);
  }

  /** The call tried to commit the bitmap and found no mapping. */
  predicate MissedCommit(op: Op, r: Reply) {
    Unavailed(r) && (op.OpAlloc? || op.OpAllocBulk? || op.OpAllocProtected? || op.OpFree? || op.OpFreeBulk?)
  }

  lemma {:induction false} RawsFailIo(g: Geometry, s: Sys, env: Env, n: nat)
    ensures AllocRaws(g, s, env, n).2.Err? ==> AllocRaws(g, s, env, n).2 == Err(Io)
    decreases n
  {
    hide AllocRaw;
    if n > 0 {
      RawFailsIo(g, s, env);
      RawsFailIo(g, AllocRaw(g, s, env).0, env, n - 1);
    }
  }

  lemma RawFailsIo(g: Geometry, s: Sys, env: Env)
    ensures AllocRaw(g, s, env).1.Err? ==> AllocRaw(g, s, env).1 == Err(Io)
  {
    hide FreeSlot, Mark, GrowTo, SetLen;
  }

  /** A call that makes n raw allocations and then, if they succeed, a commit. */
  lemma RawsParity(g: Geometry, s: Sys, env: Env, n: nat)
    ensures
      var (s1, ids, r) := AllocRaws(g, s, env, n);
      && (InStep(s1.mem) <==> InStep(s.mem))
      && (InStep(Commit(g, s1).0.mem) <==> (InStep(s.mem) <==> s1.mapped))
      && (r.Err? ==> r == Err(Io))
  {
    hide AllocRaws, Commit;
    RawsFailIo(g, s, env, n);
    RawsKeepDirs(g, s, env, n);
    RawsGeneration(g, s, env, n);
    CommitParity(g, AllocRaws(g, s, env, n).0);
  }

  lemma AllocParity(g: Geometry, s: Sys, env: Env)
    ensures
      var (s', r) := Alloc(g, s, env);
      InStep(s'.mem) <==> (InStep(s.mem) <==> r != Err(Unavailable))
  {
    hide AllocRaw, Commit;
    RawFailsIo(g, s, env);
    RawKeepsDirs(g, s, env);
    RawGeneration(g, s, env);
    CommitParity(g, AllocRaw(g, s, env).0);
    CommitFrame(g, AllocRaw(g, s, env).0);
  }

  lemma AllocBulkParity(g: Geometry, s: Sys, env: Env, n: nat)
    ensures
      var (s', r) := AllocBulk(g, s, env, n);
      InStep(s'.mem) <==> (InStep(s.mem) <==> r != Err(Unavailable))
  {
    hide AllocRaws, Commit, UnmarkAll, InStep;
    RawsParity(g, s, env, n);
    var (s1, ids, r) := AllocRaws(g, s, env, n);
    CommitFrame(g, s1);
    UnmarkAllGeneration(s1.mem.meta, ids);
    SameStep(s1.mem, s1.mem.(meta := UnmarkAll(s1.mem.meta, ids)));
  }

  lemma SameStep(m: Mem, m': Mem)
    requires m'.active == m.active && m'.meta.generation == m.meta.generation
    ensures InStep(m') <==> InStep(m)
  {
  }

  lemma AllocProtectedParity(g: Geometry, s: Sys, env: Env)
    requires |s.mem.blocks| == |s.mem.dirs|
    ensures
      var (s', r) := AllocProtected(g, s, env);
      InStep(s'.mem) <==> (InStep(s.mem) <==> r != Err(Unavailable))
  {
    hide AllocRaws, Commit, CommitDir, AllocProtected, AllocInBlock, AllocNewBlock, FirstFreeEntry, NewEntry, Rewritten,
         AppendBlock, IdAt, InStep;
    AllocProtectedCases(g, s, env);
    var b := FirstOpenBlock(s.mem.dirs);
    if b < |s.mem.dirs| {
      RawsParity(g, s, env, 2);
      AllocInBlockSteps(g, s, env, b);
      var s1 := AllocRaws(g, s, env, 2).0;
      CommitFrame(g, s1);
      SameStep(Commit(g, s1).0.mem, AllocInBlock(g, s, env, b).0.mem.(meta := Commit(g, s1).0.mem.meta,
                                                                        active := Commit(g, s1).0.mem.active));
    } else if |s.mem.blocks| < MaxDirBlocks(g.pageSize) {
      RawsParity(g, s, env, 4);
      AllocNewBlockSteps(g, s, env);
      var (s1, ids, r) := AllocRaws(g, s, env, 4);
      CommitFrame(g, s1);
      var s2 := Commit(g, s1).0;
      if r.Ok? {
        AppendFrame(g, s2.mem, ids[0], ids[1], NewEntry(g, s2.disk, ids[2], ids[3]));
      }
      SameStep(s2.mem, AllocNewBlock(g, s, env).0.mem.(meta := s2.mem.meta, active := s2.mem.active));
    }
  }

  lemma FreeProtectedParity(g: Geometry, s: Sys, id: nat)
    requires |s.mem.blocks| == |s.mem.dirs|
    ensures InStep(FreeProtected(g, s, id).0.mem) <==> InStep(s.mem)
  {
    hide FreeProtected, Commit, CommitDir, Unmark, Rewritten, BlockOf, SlotOf;
    if InUse(g, s.mem, id) {
      InUseHasEntry(g, s.mem, id);
      FreeProtectedSteps(g, s, id);
      var b, slot := BlockOf(g, id), SlotOf(g, id);
      var e := s.mem.dirs[b].entries[slot];
      var m := Rewritten(s.mem, b, slot, e.(inUse := false));
      if s.mapped {
        var s1 := CommitDir(g, s.(mem := m), b).0;
        var t := WithMeta(s1, Unmark(Unmark(s1.mem.meta, e.pageA), e.pageB));
        UnmarkGeneration(s1.mem.meta, e.pageA);
        UnmarkGeneration(Unmark(s1.mem.meta, e.pageA), e.pageB);
        CommitParity(g, t);
      }
    } else {
      FreeNotInUse(g, s, id);
    }
  }

  lemma WriteProtectedParity(g: Geometry, s: Sys, id: nat, page: Page)
    requires |s.mem.blocks| == |s.mem.dirs|
    ensures InStep(WriteProtected(g, s, id, page).0.mem) <==> InStep(s.mem)
  {
    hide WriteProtected, StageWrite, CommitWrite, CommitDir, Flush, Rewritten, BlockOf, SlotOf, InUse, Flipped, InactivePhys,
         MappedPage;
    WriteProtectedCases(g, s, id, page);
    if InUse(g, s.mem, id) && s.mapped {
      InUseHasEntry(g, s.mem, id);
      CommitWriteSteps(g, StageWrite(g, s, id, page).0, id);
    }
  }

  lemma FreeParity(g: Geometry, s: Sys, id: nat)
    ensures
      var (s', r) := Free(g, s, id);
      InStep(s'.mem) <==> (InStep(s.mem) <==> r != Err(Unavailable))
  {
    hide Commit, Unmark, Allocated;
    UnmarkGeneration(s.mem.meta, id);
    CommitParity(g, WithMeta(s, Unmark(s.mem.meta, id)));
    CommitFrame(g, WithMeta(s, Unmark(s.mem.meta, id)));
  }

  lemma FreeBulkParity(g: Geometry, s: Sys, ids: seq<nat>)
    ensures
      var (s', r) := FreeBulk(g, s, ids);
      InStep(s'.mem) <==> (InStep(s.mem) <==> r != Err(Unavailable))
  {
    hide Commit, UnmarkAll, Sort, AdjacentEqual, CheckIds;
    var sorted := Sort(ids, IdLeq);
    CheckIdsError(s.mem.meta, sorted);
    UnmarkAllGeneration(s.mem.meta, sorted);
    CommitParity(g, WithMeta(s, UnmarkAll(s.mem.meta, sorted)));
    CommitFrame(g, WithMeta(s, UnmarkAll(s.mem.meta, sorted)));
  }

  /** Every call, from any state: it changes whether selector and generation are in step exactly
      when it tried to commit the bitmap without a mapping. */
  lemma CallParity(g: Geometry, s: Sys, op: Op)
    requires |s.mem.blocks| == |s.mem.dirs|
    ensures
      var (s', r) := Do(g, Begin(s), op);
      InStep(s'.mem) <==> (InStep(s.mem) <==> !MissedCommit(op, r))
  {
    hide Alloc, AllocBulk, Free, FreeBulk, AllocProtected, FreeProtected, WriteProtected, StageWrite, InStep;
    var t := Begin(s);
    match op
    case OpAlloc(env) => AllocParity(g, t, env);
    case OpAllocBulk(env, count) => AllocBulkParity(g, t, env, count);
    case OpAllocProtected(env) => AllocProtectedParity(g, t, env);
    case OpFree(id) => FreeParity(g, t, id);
    case OpFreeBulk(ids) => FreeBulkParity(g, t, ids);
    case OpFreeProtected(id) => FreeProtectedParity(g, t, id);
    case OpWriteProtected(id, page) => WriteProtectedParity(g, t, id, page);
    case OpStage(id, page) => StageFrame(g, t, id, page);
    case OpWriteRegular(id, page) =>
  }

  // ── The file, at every disk of a call ──────────────────────────────────────

  /** The same selector and the same generation. */
  predicate SamePlace(m: Mem, n: Mem) {
    m.active == n.active && m.meta.generation == n.meta.generation
  }

  /** Where the next commit of memory leads. */
  function NextPlace(m: Mem): Mem {
    m.(meta := NextGeneration(m.meta), active := m.active.Other())
  }

  /** What is durable, and every state a crash could have led to so far, is at place x or y. */
  ghost predicate Visits(s: Sys, x: Mem, y: Mem) {
    && (SamePlace(s.dur, x) || SamePlace(s.dur, y))
    && forall i :: 0 <= i < |s.trace| ==>
         && (SamePlace(s.trace[i].cur, x) || SamePlace(s.trace[i].cur, y))
         && (SamePlace(s.trace[i].next, x) || SamePlace(s.trace[i].next, y))
  }

  lemma StepVisits(s: Sys, d: Disk, x: Mem, y: Mem)
    requires Visits(s, x, y)
    ensures Visits(Step(s, d), x, y)
  {
    hide SamePlace;
  }

  lemma PublishVisits(s: Sys, i: nat, page: Page, page0: Page, next: Mem, x: Mem, y: Mem)
    requires Visits(s, x, y) && (SamePlace(next, x) || SamePlace(next, y))
    ensures Visits(Publish(s, i, page, page0, next), x, y)
  {
    hide SamePlace, Store, Flush;
  }

  lemma VisitsAside(s: Sys, s': Sys, x: Mem, y: Mem)
    requires Visits(s, x, y) && s'.dur == s.dur && s'.trace == s.trace
    ensures Visits(s', x, y)
  {
    hide SamePlace;
  }

  lemma CommitVisits(g: Geometry, s: Sys, m: Mem, x: Mem)
    requires Visits(s, x, NextPlace(m)) && SamePlace(s.mem, m)
    ensures Visits(Commit(g, s).0, x, NextPlace(m))
  {
    hide Visits, Publish, MetaBytes, Page0Bytes;
    var y := NextPlace(m);
    var meta := NextGeneration(s.mem.meta);
    var target := s.mem.active.Other();
    var next := Mem(meta, target, s.mem.blocks, s.dur.dirs);
    var page0 := Page0Bytes(g, Super(g, target, g.crc(MetaBytes(g, meta))), s.mem.blocks);
    if s.mapped {
      PublishVisits(s, target.PageId(), MetaBytes(g, meta), page0, next, x, y);
      VisitsAside(Publish(s, target.PageId(), MetaBytes(g, meta), page0, next), Commit(g, s).0, x, y);
    } else {
      VisitsAside(s, Commit(g, s).0, x, y);
    }
  }

  lemma CommitDirVisits(g: Geometry, s: Sys, b: nat, x: Mem, y: Mem)
    requires b < |s.mem.blocks| && b < |s.mem.dirs| && Visits(s, x, y) && s.mem.active == s.dur.active
    ensures Visits(CommitDir(g, s, b).0, x, y)
  {
    hide Visits, Publish, DirBytes, Page0Bytes, Landed, Store, Flush;
    if s.mapped {
      var r := s.mem.blocks[b];
      var buf := DirBytes(g, s.mem.dirs[b]);
      var stored := Flush(Store(s.disk, r.Inactive(), buf), r.Inactive());
      var checksum := g.crc(MappedPage(stored, s.mem.active.PageId()));
      var page0 := Page0Bytes(g, Super(g, s.mem.active, checksum), FlipBlock(s.mem.blocks, b));
      VisitsDur(s, x, y);
      PublishVisits(s, r.Inactive(), buf, page0, Published(s, b), x, y);
      VisitsAside(Publish(s, r.Inactive(), buf, page0, Published(s, b)), CommitDir(g, s, b).0, x, y);
    }
  }

  lemma VisitsDur(s: Sys, x: Mem, y: Mem)
    requires Visits(s, x, y)
    ensures SamePlace(s.dur, x) || SamePlace(s.dur, y)
  {
  }

  lemma RawVisits(g: Geometry, s: Sys, env: Env, x: Mem, y: Mem)
    requires Visits(s, x, y)
    ensures Visits(AllocRaw(g, s, env).0, x, y)
  {
    hide FreeSlot, Mark, GrowTo, SetLen, Visits;
    var s1 := Step(s, SetLen(g, s.disk, s.mem.meta.total * 2));
    var s2 := Step(s1, SetLen(g, s1.disk, s.mem.meta.total));
    StepVisits(s, SetLen(g, s.disk, s.mem.meta.total * 2), x, y);
    StepVisits(s1, SetLen(g, s1.disk, s.mem.meta.total), x, y);
    var s' := AllocRaw(g, s, env).0;
    if s'.trace == s.trace {
      VisitsAside(s, s', x, y);
    } else if s'.trace == s1.trace {
      VisitsAside(s1, s', x, y);
    } else {
      VisitsAside(s2, s', x, y);
    }
  }

  lemma {:induction false} RawsVisit(g: Geometry, s: Sys, env: Env, n: nat, x: Mem, y: Mem)
    requires Visits(s, x, y)
    ensures Visits(AllocRaws(g, s, env, n).0, x, y)
    decreases n
  {
    hide AllocRaw, Visits;
    if n > 0 {
      RawVisits(g, s, env, x, y);
      RawsVisit(g, AllocRaw(g, s, env).0, env, n - 1, x, y);
    }
  }

  /** Raw allocations leave memory where it is; a commit follows. */
  lemma RawsThenCommit(g: Geometry, s: Sys, env: Env, n: nat, x: Mem)
    requires Visits(s, x, NextPlace(s.mem))
    ensures
      var s1 := AllocRaws(g, s, env, n).0;
      && Visits(s1, x, NextPlace(s.mem)) && Visits(Commit(g, s1).0, x, NextPlace(s.mem))
  {
    hide AllocRaws, Commit, Visits;
    RawsVisit(g, s, env, n, x, NextPlace(s.mem));
    RawsKeepDirs(g, s, env, n);
    RawsGeneration(g, s, env, n);
    CommitVisits(g, AllocRaws(g, s, env, n).0, s.mem, x);
  }

  lemma AllocVisits(g: Geometry, s: Sys, env: Env, x: Mem)
    requires Visits(s, x, NextPlace(s.mem))
    ensures Visits(Alloc(g, s, env).0, x, NextPlace(s.mem))
  {
    hide AllocRaw, Commit, Visits;
    RawVisits(g, s, env, x, NextPlace(s.mem));
    RawKeepsDirs(g, s, env);
    RawGeneration(g, s, env);
    CommitVisits(g, AllocRaw(g, s, env).0, s.mem, x);
  }

  lemma AllocBulkVisits(g: Geometry, s: Sys, env: Env, n: nat, x: Mem)
    requires Visits(s, x, NextPlace(s.mem))
    ensures Visits(AllocBulk(g, s, env, n).0, x, NextPlace(s.mem))
  {
    hide AllocRaws, Commit, Visits, UnmarkAll;
    RawsThenCommit(g, s, env, n, x);
    var (s1, ids, r) := AllocRaws(g, s, env, n);
    VisitsAside(s1, WithMeta(s1, UnmarkAll(s1.mem.meta, ids)), x, NextPlace(s.mem));
  }

  lemma FreeVisits(g: Geometry, s: Sys, id: nat, x: Mem)
    requires Visits(s, x, NextPlace(s.mem))
    ensures Visits(Free(g, s, id).0, x, NextPlace(s.mem))
  {
    hide Commit, Visits, Unmark, Allocated;
    var t := WithMeta(s, Unmark(s.mem.meta, id));
    UnmarkGeneration(s.mem.meta, id);
    VisitsAside(s, t, x, NextPlace(s.mem));
    CommitVisits(g, t, s.mem, x);
  }

  lemma FreeBulkVisits(g: Geometry, s: Sys, ids: seq<nat>, x: Mem)
    requires Visits(s, x, NextPlace(s.mem))
    ensures Visits(FreeBulk(g, s, ids).0, x, NextPlace(s.mem))
  {
    hide Commit, Visits, UnmarkAll, Sort, AdjacentEqual, CheckIds;
    var t := WithMeta(s, UnmarkAll(s.mem.meta, Sort(ids, IdLeq)));
    UnmarkAllGeneration(s.mem.meta, Sort(ids, IdLeq));
    VisitsAside(s, t, x, NextPlace(s.mem));
    CommitVisits(g, t, s.mem, x);
  }

  lemma AllocProtectedVisits(g: Geometry, s: Sys, env: Env, x: Mem)
    requires |s.mem.blocks| == |s.mem.dirs| && Visits(s, x, NextPlace(s.mem))
    ensures Visits(AllocProtected(g, s, env).0, x, NextPlace(s.mem))
  {
    hide AllocRaws, Commit, CommitDir, AllocProtected, AllocInBlock, AllocNewBlock, FirstFreeEntry, NewEntry, Rewritten,
         AppendBlock, IdAt, Visits;
    AllocProtectedCases(g, s, env);
    var y := NextPlace(s.mem);
    var b := FirstOpenBlock(s.mem.dirs);
    if b < |s.mem.dirs| {
      RawsThenCommit(g, s, env, 2, x);
      AllocInBlockSteps(g, s, env, b);
      FreeEntryUnused(s.mem, b);
      var (s1, ids, r) := AllocRaws(g, s, env, 2);
      CommitFrame(g, s1);
      if r.Ok? && s1.mapped {
        var s2 := Commit(g, s1).0;
        var t := s2.(mem := Rewritten(s2.mem, b, FirstFreeEntry(s.mem.dirs[b].entries), NewEntry(g, s2.disk, ids[0], ids[1])));
        VisitsAside(s2, t, x, y);
        CommitDirVisits(g, t, b, x, y);
      }
    } else if |s.mem.blocks| < MaxDirBlocks(g.pageSize) {
      RawsThenCommit(g, s, env, 4, x);
      AllocNewBlockSteps(g, s, env);
      var (s1, ids, r) := AllocRaws(g, s, env, 4);
      CommitFrame(g, s1);
      if r.Ok? && s1.mapped {
        var s2 := Commit(g, s1).0;
        var e := NewEntry(g, s2.disk, ids[2], ids[3]);
        var t := s2.(mem := AppendBlock(g, s2.mem, ids[0], ids[1], e));
        AppendFrame(g, s2.mem, ids[0], ids[1], e);
        VisitsAside(s2, t, x, y);
        CommitDirVisits(g, t, |s.mem.blocks|, x, y);
      }
    }
  }

  lemma FreeProtectedVisits(g: Geometry, s: Sys, id: nat, x: Mem)
    requires |s.mem.blocks| == |s.mem.dirs| && Visits(s, x, NextPlace(s.mem)) && s.mem.active == s.dur.active
    ensures Visits(FreeProtected(g, s, id).0, x, NextPlace(s.mem))
  {
    hide FreeProtected, Commit, CommitDir, Unmark, Rewritten, BlockOf, SlotOf, Visits;
    if InUse(g, s.mem, id) {
      InUseHasEntry(g, s.mem, id);
      FreeProtectedSteps(g, s, id);
      var y := NextPlace(s.mem);
      var b, slot := BlockOf(g, id), SlotOf(g, id);
      var e := s.mem.dirs[b].entries[slot];
      var t := s.(mem := Rewritten(s.mem, b, slot, e.(inUse := false)));
      VisitsAside(s, t, x, y);
      if s.mapped {
        CommitDirVisits(g, t, b, x, y);
        var s1 := CommitDir(g, t, b).0;
        var s2 := WithMeta(s1, Unmark(Unmark(s1.mem.meta, e.pageA), e.pageB));
        UnmarkGeneration(s1.mem.meta, e.pageA);
        UnmarkGeneration(Unmark(s1.mem.meta, e.pageA), e.pageB);
        VisitsAside(s1, s2, x, y);
        CommitVisits(g, s2, s.mem, x);
      }
    } else {
      FreeNotInUse(g, s, id);
    }
  }

  lemma StageVisits(g: Geometry, s: Sys, id: nat, page: Page, x: Mem, y: Mem)
    requires Visits(s, x, y)
    ensures Visits(StageWrite(g, s, id, page).0, x, y)
  {
    hide Visits, Store, EntryOf, InactivePhys;
    StepVisits(s, Store(s.disk, InactivePhys(EntryOf(g, s.mem, id)), page), x, y);
  }

  lemma WriteProtectedVisits(g: Geometry, s: Sys, id: nat, page: Page, x: Mem, y: Mem)
    requires |s.mem.blocks| == |s.mem.dirs| && Visits(s, x, y) && s.mem.active == s.dur.active
    ensures Visits(WriteProtected(g, s, id, page).0, x, y)
  {
    hide WriteProtected, StageWrite, CommitWrite, CommitDir, Flush, Flipped, Rewritten, BlockOf, SlotOf, InUse, InactivePhys,
         MappedPage, Visits;
    WriteProtectedCases(g, s, id, page);
    StageFrame(g, s, id, page);
    if InUse(g, s.mem, id) && s.mapped {
      InUseHasEntry(g, s.mem, id);
      var s0 := StageWrite(g, s, id, page).0;
      StageVisits(g, s, id, page, x, y);
      CommitWriteSteps(g, s0, id);
      var b, slot := BlockOf(g, id), SlotOf(g, id);
      var e := s.mem.dirs[b].entries[slot];
      var s1 := Step(s0, Flush(s0.disk, InactivePhys(e)));
      StepVisits(s0, Flush(s0.disk, InactivePhys(e)), x, y);
      var t := s1.(mem := Rewritten(s1.mem, b, slot, Flipped(e, g.crc(MappedPage(s1.disk, InactivePhys(e))))));
      VisitsAside(s1, t, x, y);
      CommitDirVisits(g, t, b, x, y);
    }
  }

  lemma WriteRegularVisits(s: Sys, id: nat, page: Page, x: Mem, y: Mem)
    requires Visits(s, x, y)
    ensures Visits(WriteRegular(s, id, page).0, x, y)
  {
    hide Visits, Store;
    StepVisits(s, Store(s.disk, id, page), x, y);
  }

  /** At every disk of a call the file is where it was, or where one commit of memory leads. */
  lemma CallVisits(g: Geometry, s: Sys, op: Op)
    requires |s.mem.blocks| == |s.mem.dirs| && s.mem.active == s.dur.active
    ensures Visits(Do(g, Begin(s), op).0, s.dur, NextPlace(s.mem))
  {
    hide Alloc, AllocBulk, Free, FreeBulk, AllocProtected, FreeProtected, WriteProtected, StageWrite, WriteRegular;
    var t := Begin(s);
    var x := s.dur;
    assert Visits(t, x, NextPlace(s.mem));
    match op
    case OpAlloc(env) => AllocVisits(g, t, env, x);
    case OpAllocBulk(env, count) => AllocBulkVisits(g, t, env, count, x);
    case OpAllocProtected(env) => AllocProtectedVisits(g, t, env, x);
    case OpFree(id) => FreeVisits(g, t, id, x);
    case OpFreeBulk(ids) => FreeBulkVisits(g, t, ids, x);
    case OpFreeProtected(id) => FreeProtectedVisits(g, t, id, x);
    case OpWriteProtected(id, page) => WriteProtectedVisits(g, t, id, page, x, NextPlace(s.mem));
    case OpStage(id, page) => StageVisits(g, t, id, page, x, NextPlace(s.mem));
    case OpWriteRegular(id, page) => WriteRegularVisits(t, id, page, x, NextPlace(s.mem));
  }

  lemma PointVisits(s: Sys, at: nat, x: Mem, y: Mem, m: Mem)
    requires Visits(s, x, y) && at < |s.trace| && (m == s.trace[at].cur || m == s.trace[at].next)
    ensures SamePlace(m, x) || SamePlace(m, y)
  {
  }

  // ── Runs ───────────────────────────────────────────────────────────────────

  /** How many commits attempted without a mapping memory and the file have behind them. */
  datatype Count = Count(memory: nat, file: nat)

  /** A missed commit counts for memory at once and for the file once a later commit has been made,
      which is when the file's selector moves. Reopening takes over what the file has. */
  ghost function Missed(ss: seq<Sys>, es: seq<Event>): Count
    requires |ss| == |es| + 1
    decreases |es|
  {
    if es == [] then Count(0, 0)
    else
      var n := |es| - 1;
      var before := Missed(ss[..n + 1], es[..n]);
      var file := if ss[n + 1].dur.active == ss[n].dur.active then before.file else before.memory;
      if es[n].Call? then
        Count(before.memory + if MissedCommit(es[n].op, es[n].reply) then 1 else 0, file)
      else Count(file, file)
  }

  lemma PlaceStep(m: Mem, dur: Mem, s: Sys)
    requires s.mem.active == s.dur.active && dur == s.dur
    requires SamePlace(m, dur) || SamePlace(m, NextPlace(s.mem))
    ensures m.active == dur.active ==> (InStep(m) <==> InStep(dur))
    ensures m.active != dur.active ==> (InStep(m) <==> InStep(s.mem))
  {
  }

  /** What an event does to both parities. */
  lemma EventParity(g: Geometry, s: Sys, e: Event, s': Sys, v: View)
    requires Next(g, s, e, s') && Shows(g, s, v)
    ensures
      if e.Call? then InStep(s'.mem) <==> (InStep(s.mem) <==> !MissedCommit(e.op, e.reply)) else s'.mem == s'.dur
    ensures InStep(s'.dur) <==> if s'.dur.active == s.dur.active then InStep(s.dur) else InStep(s.mem)
  {
    hide Do, InStep, Capacity, OwnPages, EntryOf, CrashImage, Open, MissedCommit, Shows, Visits, Steady, DirsLag, Consistent, AbsCrash;
    ShowsReady(g, s, v);
    SteadyLag(g, s, v.pages);
    match e
    case Call(op, reply) =>
      CallParity(g, s, op);
      CallVisits(g, s, op);
      VisitsDur(s', s.dur, NextPlace(s.mem));
      PlaceStep(s'.dur, s.dur, s);
    case CrashDuring(op, at, file) =>
      CallVisits(g, s, op);
      var v' := CrashDuringCall(g, s, op, v, at, file);
      PointVisits(Do(g, Begin(s), op).0, at, s.dur, NextPlace(s.mem), s'.dur);
      PlaceStep(s'.dur, s.dur, s);
    case Reboot(file) =>
      CrashBetweenCalls(g, s, v.pages, file);
  }

  lemma CreatedInStep(g: Geometry)
    ensures InStep(Created(g).mem) && Created(g).mem == Created(g).dur
  {
    hide InitialFile;
  }

  /** In every state of every run the selector is A exactly at even generations when an even number
      of commits were attempted without a mapping, and exactly at odd ones otherwise: in memory
      counting all of them, in the file those before its last commit. */
  lemma {:induction false} ParityOfRun(g: Geometry, ss: seq<Sys>, es: seq<Event>)
    requires IsRun(g, ss, es)
    ensures |ss| == |es| + 1
    ensures InStep(ss[|es|].mem) <==> Missed(ss, es).memory % 2 == 0
    ensures InStep(ss[|es|].dur) <==> Missed(ss, es).file % 2 == 0
    decreases |es|
  {
    hide Next, InStep, MissedCommit, Created, Shows, AbsNext;
    if es == [] {
      CreatedInStep(g);
    } else {
      var n := |es| - 1;
      ParityOfRun(g, ss[..n + 1], es[..n]);
      assert ss[..n + 1][n] == ss[n];
      var views := RunRefines(g, ss, es);
      EventParity(g, ss[n], es[n], ss[n + 1], views[n]);
    }
  }
}
