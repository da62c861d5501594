/** Which pages a call writes to: every other page keeps its bytes, in the mapping and in the
    file, and stays as clean or dirty as it was. */
module Frames {
  import opened Bytes
  import opened Metadata
  import opened Layout
  import opened Disks
  import opened Recovery
  import opened Sorting
  import opened PagerSpec
  import opened Ownership
  import opened DirSafety
  import opened Entries
  import opened Operations
  import opened Bulk
  import opened Runs
  import opened LostMapping

  // ── Steps ──────────────────────────────────────────────────────────────────

  /** Page p is the same on both disks. */
  predicate SameAt(d: Disk, d': Disk, p: nat) {
    && p < |d.mapped| && p < |d.durable| && p < |d'.mapped| && p < |d'.durable|
    && d'.mapped[p] == d.mapped[p] && d'.durable[p] == d.durable[p] && (p in d'.dirty <==> p in d.dirty)
  }

  /** Of the first n pages all but those in w are the same. */
  ghost predicate Framed(d: Disk, d': Disk, n: nat, w: set<nat>) {
    forall p: nat :: p < n && p !in w ==> SameAt(d, d', p)
  }

  /** The first n pages exist. */
  predicate Long(d: Disk, n: nat) {
    n <= |d.mapped| && n <= |d.durable|
  }

  lemma FramedTwice(d: Disk, d1: Disk, d2: Disk, n: nat, w: set<nat>, w1: set<nat>, all: set<nat>)
    requires Framed(d, d1, n, w) && Framed(d1, d2, n, w1) && w <= all && w1 <= all
    ensures Framed(d, d2, n, all)
  {
  }

  lemma FramedMore(d: Disk, d': Disk, n: nat, w: set<nat>, w': set<nat>)
    requires Framed(d, d', n, w) && w <= w'
    ensures Framed(d, d', n, w')
  {
    hide SameAt;
  }

  lemma FramedSelf(d: Disk, n: nat)
    requires Long(d, n)
    ensures Framed(d, d, n, {})
  {
  }

  lemma StoreFramed(d: Disk, n: nat, i: nat, page: Page)
    requires Long(d, n)
    ensures Framed(d, Store(d, i, page), n, {i}) && Long(Store(d, i, page), n)
  {
  }

  lemma FlushFramed(d: Disk, n: nat, i: nat)
    requires Long(d, n)
    ensures Framed(d, Flush(d, i), n, {i}) && Long(Flush(d, i), n)
  {
  }

  lemma ResizeFramed(g: Geometry, d: Disk, n: nat, pages: nat)
    requires Long(d, n) && n <= pages
    ensures Framed(d, SetLen(g, d, pages), n, {}) && Long(SetLen(g, d, pages), n)
  {
  }

  lemma StoreFlushFramed(d: Disk, n: nat, i: nat, page: Page)
    requires Long(d, n)
    ensures Framed(d, Flush(Store(d, i, page), i), n, {i}) && Long(Flush(Store(d, i, page), i), n)
  {
    hide Store, Flush, Framed, Long;
    StoreFramed(d, n, i, page);
    FlushFramed(Store(d, i, page), n, i);
    FramedTwice(d, Store(d, i, page), Flush(Store(d, i, page), i), n, {i}, {i}, {i});
  }

  lemma PublishFramed(s: Sys, n: nat, i: nat, page: Page, page0: Page, next: Mem)
    requires Long(s.disk, n)
    ensures
      var s' := Publish(s, i, page, page0, next);
      Framed(s.disk, s'.disk, n, {i, 0}) && Long(s'.disk, n) && s'.dur == next
  {
    hide Store, Flush, Framed, Long;
    var d := Flush(Store(s.disk, i, page), i);
    StoreFlushFramed(s.disk, n, i, page);
    StoreFlushFramed(d, n, 0, page0);
    FramedTwice(s.disk, d, Flush(Store(d, 0, page0), 0), n, {i}, {0}, {i, 0});
  }

  lemma CommitFramed(g: Geometry, s: Sys, n: nat)
    requires Long(s.disk, n)
    ensures
      var s' := Commit(g, s).0;
      Framed(s.disk, s'.disk, n, {s.mem.active.Other().PageId(), 0}) && Long(s'.disk, n)
  {
    hide Publish, MetaBytes, Page0Bytes, Framed, Long;
    var target := s.mem.active.Other();
    if s.mapped {
      var meta := NextGeneration(s.mem.meta);
      var buf := MetaBytes(g, meta);
      var next := Mem(meta, target, s.mem.blocks, s.dur.dirs);
      PublishFramed(s, n, target.PageId(), buf, Page0Bytes(g, Super(g, target, g.crc(buf)), s.mem.blocks), next);
    } else {
      FramedSelf(s.disk, n);
      FramedMore(s.disk, s.disk, n, {}, {target.PageId(), 0});
    }
  }

  lemma CommitDirFramed(g: Geometry, s: Sys, n: nat, b: nat)
    requires Long(s.disk, n) && b < |s.mem.blocks| == |s.mem.dirs| && s.mapped
    ensures
      var s' := CommitDir(g, s, b).0;
      && Framed(s.disk, s'.disk, n, {s.mem.blocks[b].Inactive(), 0}) && Long(s'.disk, n)
      && s'.dur == Published(s, b)
  {
    hide Publish, DirBytes, Page0Bytes, Framed, Long, Store, Flush, Landed;
    var r := s.mem.blocks[b];
    var buf := DirBytes(g, s.mem.dirs[b]);
    var stored := Flush(Store(s.disk, r.Inactive(), buf), r.Inactive());
    var checksum := g.crc(MappedPage(stored, s.mem.active.PageId()));
    var page0 := Page0Bytes(g, Super(g, s.mem.active, checksum), FlipBlock(s.mem.blocks, b));
    PublishFramed(s, n, r.Inactive(), buf, page0, Published(s, b));
  }

  lemma RawFramed(g: Geometry, s: Sys, env: Env, n: nat)
    requires Long(s.disk, n) && n <= s.mem.meta.total
    ensures
      var s' := AllocRaw(g, s, env).0;
      Framed(s.disk, s'.disk, n, {}) && Long(s'.disk, n) && n <= s'.mem.meta.total
  {
    hide FreeSlot, Mark, GrowTo, SetLen, Framed, Long;
    var total := s.mem.meta.total;
    var d1 := SetLen(g, s.disk, total * 2);
    FramedSelf(s.disk, n);
    ResizeFramed(g, s.disk, n, total * 2);
    ResizeFramed(g, d1, n, total);
    FramedTwice(s.disk, d1, SetLen(g, d1, total), n, {}, {}, {});
    RawTotal(g, s, env);
  }

  lemma RawTotal(g: Geometry, s: Sys, env: Env)
    ensures AllocRaw(g, s, env).0.mem.meta.total >= s.mem.meta.total
  {
    hide FreeSlot, SetLen;
  }

  lemma {:induction false} RawsFramed(g: Geometry, s: Sys, env: Env, n: nat, k: nat)
    requires Long(s.disk, n) && n <= s.mem.meta.total
    ensures
      var s' := AllocRaws(g, s, env, k).0;
      Framed(s.disk, s'.disk, n, {}) && Long(s'.disk, n)
    decreases k
  {
    hide AllocRaw, Framed, Long;
    FramedSelf(s.disk, n);
    if k > 0 {
      RawFramed(g, s, env, n);
      var s1 := AllocRaw(g, s, env).0;
      RawsFramed(g, s1, env, n, k - 1);
      FramedTwice(s.disk, s1.disk, AllocRaws(g, s1, env, k - 1).0.disk, n, {}, {}, {});
    }
  }

  // ── Calls ──────────────────────────────────────────────────────────────────

  /** Where a call starts: the pages memory counts exist, and those behind the directory have one
      owner each. */
  ghost predicate Placed(g: Geometry, s: Sys) {
    && Long(s.disk, s.mem.meta.total) && Consistent(g, s.mem) && |s.mem.blocks| == |s.mem.dirs|
  }

  /** The metadata page the next commit goes to, and page 0. */
  function CommitPages(s: Sys): set<nat> {
    {s.mem.active.Other().PageId(), 0}
  }

  /** The copy of block b that the next directory commit goes to, and page 0. */
  function DirCommitPages(s: Sys, b: nat): set<nat> {
    if b < |s.mem.blocks| then {s.mem.blocks[b].Inactive(), 0} else {}
  }

  /** The block of the id a call is about, if its page has been asked for and can be reached. */
  function BlockWritten(g: Geometry, s: Sys, op: Op): nat {
    match op
    case OpAllocProtected(_) => FirstOpenBlock(s.mem.dirs)
    case OpFreeProtected(id) => BlockOf(g, id)
    case OpWriteProtected(id, _) => BlockOf(g, id)
    case _ => |s.mem.blocks|
  }

  /** The pages a call may write to, apart from pages that were free before it. */
  function Written(g: Geometry, s: Sys, op: Op, ok: bool): set<nat> {
    var b := BlockWritten(g, s, op);
    (match op
     case OpStage(id, _) => if ok then {InactivePhys(EntryOf(g, s.mem, id))} else {}
     case OpWriteProtected(id, _) => if ok then {InactivePhys(EntryOf(g, s.mem, id))} else {}
     case OpWriteRegular(id, _) => {id}
     case _ => CommitPages(s))
    + (if ok then DirCommitPages(s, b) else {})
  }

  lemma RawsThenCommit(g: Geometry, s: Sys, env: Env, k: nat)
    requires Placed(g, s)
    ensures
      var s1 := AllocRaws(g, s, env, k).0;
      var s2 := Commit(g, s1).0;
      var n := s.mem.meta.total;
      && Framed(s.disk, s1.disk, n, {}) && Framed(s.disk, s2.disk, n, CommitPages(s)) && Long(s2.disk, n)
  {
    hide AllocRaws, Commit, Framed, Long, Consistent;
    var n := s.mem.meta.total;
    var s1 := AllocRaws(g, s, env, k).0;
    RawsFramed(g, s, env, n, k);
    RawsKeepDirs(g, s, env, k);
    CommitFramed(g, s1, n);
    FramedTwice(s.disk, s1.disk, Commit(g, s1).0.disk, n, {}, CommitPages(s), CommitPages(s));
  }

  lemma AllocFramed(g: Geometry, s: Sys, env: Env)
    requires Placed(g, s)
    ensures Framed(s.disk, Alloc(g, s, env).0.disk, s.mem.meta.total, CommitPages(s))
  {
    hide AllocRaw, Commit, Framed, Long, Consistent;
    var n := s.mem.meta.total;
    RawFramed(g, s, env, n);
    RawKeepsDirs(g, s, env);
    var s1 := AllocRaw(g, s, env).0;
    CommitFramed(g, s1, n);
    FramedMore(s.disk, s1.disk, n, {}, CommitPages(s));
    FramedTwice(s.disk, s1.disk, Commit(g, s1).0.disk, n, {}, CommitPages(s), CommitPages(s));
  }

  lemma AllocBulkFramed(g: Geometry, s: Sys, env: Env, k: nat)
    requires Placed(g, s)
    ensures Framed(s.disk, AllocBulk(g, s, env, k).0.disk, s.mem.meta.total, CommitPages(s))
  {
    hide AllocRaws, Commit, Framed, Placed, UnmarkAll;
    RecommitFramed(g, s, s.mem.meta);
    RawsThenCommit(g, s, env, k);
    FramedMore(s.disk, AllocRaws(g, s, env, k).0.disk, s.mem.meta.total, {}, CommitPages(s));
  }

  lemma RecommitFramed(g: Geometry, s: Sys, meta: Meta)
    requires Placed(g, s)
    ensures Framed(s.disk, s.disk, s.mem.meta.total, {}) && Framed(s.disk, s.disk, s.mem.meta.total, CommitPages(s))
    ensures Framed(s.disk, Commit(g, WithMeta(s, meta)).0.disk, s.mem.meta.total, CommitPages(s))
  {
    hide Commit, Framed, Long, Consistent;
    FramedSelf(s.disk, s.mem.meta.total);
    FramedMore(s.disk, s.disk, s.mem.meta.total, {}, CommitPages(s));
    CommitFramed(g, WithMeta(s, meta), s.mem.meta.total);
  }

  lemma FreeFramed(g: Geometry, s: Sys, id: nat)
    requires Placed(g, s)
    ensures Framed(s.disk, Free(g, s, id).0.disk, s.mem.meta.total, CommitPages(s))
  {
    hide Commit, Framed, Placed, Unmark, Allocated;
    RecommitFramed(g, s, Unmark(s.mem.meta, id));
  }

  lemma FreeBulkFramed(g: Geometry, s: Sys, ids: seq<nat>)
    requires Placed(g, s)
    ensures Framed(s.disk, FreeBulk(g, s, ids).0.disk, s.mem.meta.total, CommitPages(s))
  {
    hide Commit, Framed, Placed, UnmarkAll, Sort, AdjacentEqual, CheckIds;
    RecommitFramed(g, s, UnmarkAll(s.mem.meta, Sort(ids, IdLeq)));
  }

  lemma InBlockFramed(g: Geometry, s: Sys, env: Env, b: nat)
    requires Placed(g, s) && b < |s.mem.dirs|
    requires FirstFreeEntry(s.mem.dirs[b].entries) < |s.mem.dirs[b].entries|
    ensures
      var (s', r) := AllocInBlock(g, s, env, b);
      Framed(s.disk, s'.disk, s.mem.meta.total, CommitPages(s) + if r.Ok? then DirCommitPages(s, b) else {})
  {
    hide AllocInBlock, AllocRaws, Commit, CommitDir, Rewritten, NewEntry, FirstFreeEntry, Framed, Long, Consistent, IdAt;
    var n := s.mem.meta.total;
    RawsThenCommit(g, s, env, 2);
    AllocInBlockSteps(g, s, env, b);
    FreeEntryUnused(s.mem, b);
    var (s1, ids, r) := AllocRaws(g, s, env, 2);
    FramedMore(s.disk, s1.disk, n, {}, CommitPages(s));
    NothingMore(CommitPages(s));
    CommitFrame(g, s1);
    if r.Ok? && s1.mapped {
      var s2 := Commit(g, s1).0;
      var m := Rewritten(s2.mem, b, FirstFreeEntry(s.mem.dirs[b].entries), NewEntry(g, s2.disk, ids[0], ids[1]));
      CommitDirFramed(g, s2.(mem := m), n, b);
      FramedTwice(s.disk, s2.disk, CommitDir(g, s2.(mem := m), b).0.disk, n, CommitPages(s), DirCommitPages(s, b),
                  CommitPages(s) + DirCommitPages(s, b));
    }
  }

  lemma NothingMore(w: set<nat>)
    ensures var none: set<nat> := {}; w + none == w && none + w == w
  {
  }

  lemma NewBlockPage(g: Geometry, m: Mem, a: nat, b: nat, e: DirEntry)
    requires |m.blocks| == |m.dirs|
    ensures
      var m' := AppendBlock(g, m, a, b, e);
      |m'.blocks| == |m'.dirs| == |m.blocks| + 1 && m'.blocks[|m.blocks|].Inactive() == b
  {
  }

  lemma NewBlockFramed(g: Geometry, s: Sys, env: Env)
    requires Placed(g, s)
    ensures
      exists x ::
        && x !in AllocatedSet(s.mem.meta)
        && Framed(s.disk, AllocNewBlock(g, s, env).0.disk, s.mem.meta.total, CommitPages(s) + {x})
  {
    hide AllocNewBlock, AllocRaws, Commit, CommitDir, AppendBlock, NewEntry, Framed, Long, Consistent, IdAt,
         Reachable, Remapped, AllocatedSet, Exact;
    var n := s.mem.meta.total;
    RawsThenCommit(g, s, env, 4);
    ConsistentMeta(g, s.mem);
    RawsOutcome(g, s, env, 4);
    AllocNewBlockSteps(g, s, env);
    var (s1, ids, r) := AllocRaws(g, s, env, 4);
    if r.Ok? && s1.mapped {
      CommitFrame(g, s1);
      var s2 := Commit(g, s1).0;
      var e := NewEntry(g, s2.disk, ids[2], ids[3]);
      assert ids[1] in ids;
      NewBlockPage(g, s2.mem, ids[0], ids[1], e);
      var t := s2.(mem := AppendBlock(g, s2.mem, ids[0], ids[1], e));
      CommitDirFramed(g, t, n, |s.mem.blocks|);
      FramedTwice(s.disk, s2.disk, CommitDir(g, t, |s.mem.blocks|).0.disk, n, CommitPages(s), {ids[1], 0},
                  CommitPages(s) + {ids[1]});
    } else {
      var x := s.mem.meta.total;
      AboveTotal(s.mem.meta);
      FramedMore(s.disk, s1.disk, n, {}, CommitPages(s) + {x});
      FramedMore(s.disk, Commit(g, s1).0.disk, n, CommitPages(s), CommitPages(s) + {x});
    }
  }

  lemma AboveTotal(m: Meta)
    requires Exact(m)
    ensures m.total !in AllocatedSet(m)
  {
  }

  /** Allocated pages outside w are the same. */
  ghost predicate Spares(s: Sys, s': Sys, w: set<nat>) {
    forall p: nat :: p in AllocatedSet(s.mem.meta) && p !in w ==> SameAt(s.disk, s'.disk, p)
  }

  lemma FramedSpares(s: Sys, s': Sys, w: set<nat>)
    requires Framed(s.disk, s'.disk, s.mem.meta.total, w)
    ensures Spares(s, s', w)
  {
    hide SameAt, BitAt;
  }

  lemma FramedSparesFresh(s: Sys, s': Sys, w: set<nat>, x: nat)
    requires Framed(s.disk, s'.disk, s.mem.meta.total, w + {x}) && x !in AllocatedSet(s.mem.meta)
    ensures Spares(s, s', w)
  {
    hide SameAt, BitAt;
  }

  lemma AllocProtectedSpares(g: Geometry, s: Sys, env: Env)
    requires Placed(g, s)
    ensures
      var (s', r) := AllocProtected(g, s, env);
      Spares(s, s', CommitPages(s) + if r.Ok? then DirCommitPages(s, FirstOpenBlock(s.mem.dirs)) else {})
  {
    hide AllocProtected, AllocInBlock, AllocNewBlock, FirstFreeEntry, Framed, Spares, Consistent, Long, Commit, AllocatedSet;
    AllocProtectedCases(g, s, env);
    RecommitFramed(g, s, s.mem.meta);
    NothingMore(CommitPages(s));
    var b := FirstOpenBlock(s.mem.dirs);
    if b < |s.mem.dirs| {
      InBlockFramed(g, s, env, b);
      var (s', r) := AllocInBlock(g, s, env, b);
      FramedSpares(s, s', CommitPages(s) + if r.Ok? then DirCommitPages(s, b) else {});
    } else if |s.mem.blocks| < MaxDirBlocks(g.pageSize) {
      NewBlockFramed(g, s, env);
      var x :| x !in AllocatedSet(s.mem.meta) &&
               Framed(s.disk, AllocNewBlock(g, s, env).0.disk, s.mem.meta.total, CommitPages(s) + {x});
      FramedSparesFresh(s, AllocNewBlock(g, s, env).0, CommitPages(s), x);
    } else {
      FramedSpares(s, s, CommitPages(s));
    }
  }

  lemma FreeProtectedFramed(g: Geometry, s: Sys, id: nat)
    requires Placed(g, s)
    ensures
      var (s', r) := FreeProtected(g, s, id);
      Framed(s.disk, s'.disk, s.mem.meta.total, CommitPages(s) + if r.Ok? then DirCommitPages(s, BlockOf(g, id)) else {})
  {
    hide FreeProtected, Commit, CommitDir, Unmark, Rewritten, BlockOf, SlotOf, Framed, Long, Consistent;
    RecommitFramed(g, s, s.mem.meta);
    NothingMore(CommitPages(s));
    var n := s.mem.meta.total;
    if InUse(g, s.mem, id) {
      InUseHasEntry(g, s.mem, id);
      FreeProtectedSteps(g, s, id);
      var b, slot := BlockOf(g, id), SlotOf(g, id);
      var e := s.mem.dirs[b].entries[slot];
      var m := Rewritten(s.mem, b, slot, e.(inUse := false));
      if s.mapped {
        CommitDirFramed(g, s.(mem := m), n, b);
        var s1 := CommitDir(g, s.(mem := m), b).0;
        var s2 := WithMeta(s1, Unmark(Unmark(s1.mem.meta, e.pageA), e.pageB));
        CommitFrame(g, s2);
        CommitFramed(g, s2, n);
        FramedTwice(s.disk, s1.disk, Commit(g, s2).0.disk, n, DirCommitPages(s, b), CommitPages(s),
                    CommitPages(s) + DirCommitPages(s, b));
      }
    } else {
      FreeNotInUse(g, s, id);
    }
  }

  lemma StageFramed(g: Geometry, s: Sys, id: nat, page: Page)
    requires Placed(g, s)
    ensures
      var (s', r) := StageWrite(g, s, id, page);
      && Framed(s.disk, s'.disk, s.mem.meta.total, if r.Ok? then {InactivePhys(EntryOf(g, s.mem, id))} else {})
      && Long(s'.disk, s.mem.meta.total)
  {
    hide Framed, Long, Store, EntryOf, InactivePhys, Consistent;
    FramedSelf(s.disk, s.mem.meta.total);
    StoreFramed(s.disk, s.mem.meta.total, InactivePhys(EntryOf(g, s.mem, id)), page);
  }

  lemma WriteProtectedFramed(g: Geometry, s: Sys, id: nat, page: Page)
    requires Placed(g, s)
    ensures
      var (s', r) := WriteProtected(g, s, id, page);
      Framed(s.disk, s'.disk, s.mem.meta.total,
             if r.Ok? then {InactivePhys(EntryOf(g, s.mem, id))} + DirCommitPages(s, BlockOf(g, id)) else {})
  {
    hide WriteProtected, StageWrite, CommitWrite, CommitDir, Flush, Flipped, Rewritten, BlockOf, SlotOf, InUse, InactivePhys,
         MappedPage, Framed, Long, Consistent;
    var n := s.mem.meta.total;
    WriteProtectedCases(g, s, id, page);
    StageFrame(g, s, id, page);
    StageFramed(g, s, id, page);
    FramedSelf(s.disk, n);
    if InUse(g, s.mem, id) && s.mapped {
      InUseHasEntry(g, s.mem, id);
      var s0 := StageWrite(g, s, id, page).0;
      CommitWriteSteps(g, s0, id);
      var b, slot := BlockOf(g, id), SlotOf(g, id);
      var e := s.mem.dirs[b].entries[slot];
      var x := InactivePhys(e);
      var s1 := Step(s0, Flush(s0.disk, x));
      FlushFramed(s0.disk, n, x);
      FramedTwice(s.disk, s0.disk, s1.disk, n, {x}, {x}, {x});
      var m := Rewritten(s1.mem, b, slot, Flipped(e, g.crc(MappedPage(s1.disk, x))));
      CommitDirFramed(g, s1.(mem := m), n, b);
      FramedTwice(s.disk, s1.disk, CommitDir(g, s1.(mem := m), b).0.disk, n, {x}, DirCommitPages(s, b),
                  {x} + DirCommitPages(s, b));
    }
  }

  lemma WriteRegularFramed(g: Geometry, s: Sys, id: nat, page: Page)
    requires Placed(g, s)
    ensures Framed(s.disk, WriteRegular(s, id, page).0.disk, s.mem.meta.total, {id})
  {
    hide Framed, Long, Store, Consistent;
    FramedSelf(s.disk, s.mem.meta.total);
    FramedMore(s.disk, s.disk, s.mem.meta.total, {}, {id});
    StoreFramed(s.disk, s.mem.meta.total, id, page);
  }

  /** A call writes to the metadata page and page 0 of its bitmap commit, to one copy of the
      directory page of its directory commit, to the inactive copy of the protected page it is
      about, or to the regular page it is about: every other page that was allocated is the same
      afterwards, in the mapping and in the file. */
  lemma CallFrame(g: Geometry, s: Sys, op: Op)
    requires Placed(g, s)
    ensures
      var (s', r) := Do(g, Begin(s), op);
      Spares(s, s', Written(g, s, op, r.Succeeded()))
  {
    hide Alloc, AllocBulk, Free, FreeBulk, WriteRegular, AllocProtected, FreeProtected, WriteProtected, StageWrite, Spares,
         Framed, Long, Consistent, InactivePhys, EntryOf, BlockOf, FirstOpenBlock, InUse;
    var t := Begin(s);
    var (s', r) := Do(g, t, op);
    PlacedBegin(g, s);
    var ok := r.Succeeded();
    var all := Written(g, s, op, ok);
    match op {
      case OpAlloc(env) =>
        AllocFramed(g, t, env);
        SparesMore(t, s', CommitPages(t), all);
      case OpAllocBulk(env, count) =>
        AllocBulkFramed(g, t, env, count);
        SparesMore(t, s', CommitPages(t), all);
      case OpFree(id) =>
        FreeFramed(g, t, id);
        SparesMore(t, s', CommitPages(t), all);
      case OpFreeBulk(ids) =>
        FreeBulkFramed(g, t, ids);
        SparesMore(t, s', CommitPages(t), all);
      case OpWriteRegular(id, page) =>
        WriteRegularFramed(g, t, id, page);
        SparesMore(t, s', {id}, all);
      case OpAllocProtected(env) =>
        AllocProtectedSpares(g, t, env);
      case OpFreeProtected(id) =>
        FreeProtectedFramed(g, t, id);
        SparesMore(t, s', CommitPages(t) + if ok then DirCommitPages(t, BlockOf(g, id)) else {}, all);
      case OpStage(id, page) =>
        StageFramed(g, t, id, page);
        SparesMore(t, s', if ok then {InactivePhys(EntryOf(g, t.mem, id))} else {}, all);
      case OpWriteProtected(id, page) =>
        WriteProtectedFramed(g, t, id, page);
        SparesMore(t, s',
                   if ok then {InactivePhys(EntryOf(g, t.mem, id))} + DirCommitPages(t, BlockOf(g, id)) else {}, all);
    }
    SparesBegin(s, s', all);
  }

  lemma SparesMore(s: Sys, s': Sys, w: set<nat>, all: set<nat>)
    requires Framed(s.disk, s'.disk, s.mem.meta.total, w) && w <= all
    ensures Spares(s, s', all)
  {
    hide Framed, Spares;
    FramedMore(s.disk, s'.disk, s.mem.meta.total, w, all);
    FramedSpares(s, s', all);
  }

  lemma PlacedBegin(g: Geometry, s: Sys)
    requires Placed(g, s)
    ensures Placed(g, Begin(s)) && Begin(s).disk == s.disk && Begin(s).mem == s.mem
  {
    hide Consistent;
  }

  lemma SparesBegin(s: Sys, s': Sys, w: set<nat>)
    requires Spares(Begin(s), s', w)
    ensures Spares(s, s', w)
  {
    hide AllocatedSet, SameAt;
  }
}
