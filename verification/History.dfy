/** The metadata page that is not active: through every run of calls and reopenings it holds the
    bitmap committed before the last one. */
module History {
  import opened Bytes
  import opened Results
  import opened Metadata
  import opened Layout
  import opened Disks
  import opened Recovery
  import opened Sorting
  import opened PagerSpec
  import opened Ownership
  import opened Safety
  import opened DirSafety
  import opened RawAllocation
  import opened Entries
  import opened Operations
  import opened Bulk
  import opened Runs
  import opened Durability
  import opened LostMapping

  // ── Steps that leave both metadata pages alone ─────────────────────────────

  ghost predicate Even(d: Disk) {
    |d.mapped| == |d.durable| && |d.durable| >= 4
  }

  /** The durable page i is as it was, and is not dirty unless it was. */
  ghost predicate SamePage(d: Disk, d': Disk, i: nat)
    requires Even(d) && Even(d') && i < FIRST_DATA_PAGE
  {
    d'.durable[i] == d.durable[i] && (i !in d.dirty ==> i !in d'.dirty)
  }

  ghost predicate Quiet(s: Sys, s': Sys) {
    && Even(s.disk) && Even(s'.disk) && SamePage(s.disk, s'.disk, 1) && SamePage(s.disk, s'.disk, 2)
    && s'.dur.active == s.dur.active && s'.dur.meta == s.dur.meta && s'.mem.active == s.mem.active
  }

  /** The metadata page that is not active in the durable state. */
  function Alternate(s: Sys): (i: nat)
    ensures 0 < i < FIRST_DATA_PAGE
  {
    s.dur.active.Other().PageId()
  }

  /** No bitmap was committed, or one: either way the page that is the alternate afterwards was
      not written to. */
  ghost predicate Spared(s: Sys, s': Sys) {
    && Even(s.disk) && Even(s'.disk) && SamePage(s.disk, s'.disk, Alternate(s'))
    && (s'.dur.active == s.dur.active ==> s'.dur.meta == s.dur.meta)
    && s'.mem.active == s'.dur.active
  }

  lemma QuietTwice(s: Sys, t: Sys, u: Sys)
    requires Quiet(s, t) && Quiet(t, u)
    ensures Quiet(s, u)
  {
  }

  lemma QuietSpared(s: Sys, t: Sys, u: Sys)
    requires Quiet(s, t) && Spared(t, u)
    ensures Spared(s, u)
  {
  }

  lemma SparedQuiet(s: Sys, t: Sys, u: Sys)
    requires Spared(s, t) && Quiet(t, u)
    ensures Spared(s, u)
  {
  }

  lemma QuietIsSpared(s: Sys, t: Sys)
    requires Quiet(s, t) && s.mem.active == s.dur.active
    ensures Spared(s, t)
  {
  }

  /** Nothing but memory, the mapping and the trace changes. */
  lemma QuietAside(s: Sys, s': Sys)
    requires Even(s.disk) && s'.disk == s.disk && s'.dur == s.dur && s'.mem.active == s.mem.active
    ensures Quiet(s, s')
  {
  }

  lemma StoreQuiet(s: Sys, i: nat, page: Page)
    requires Even(s.disk) && i >= FIRST_DATA_PAGE
    ensures Quiet(s, Step(s, Store(s.disk, i, page)))
  {
  }

  lemma FlushQuiet(s: Sys, i: nat)
    requires Even(s.disk) && i >= FIRST_DATA_PAGE
    ensures Quiet(s, Step(s, Flush(s.disk, i)))
  {
  }

  lemma ResizeQuiet(g: Geometry, s: Sys, n: nat)
    requires Even(s.disk) && n >= 4
    ensures Quiet(s, Step(s, SetLen(g, s.disk, n)))
  {
  }

  lemma PublishDisk(s: Sys, i: nat, page: Page, page0: Page, next: Mem)
    requires Even(s.disk) && 0 < i
    ensures
      var s' := Publish(s, i, page, page0, next);
      && s'.dur == next && Even(s'.disk)
      && forall j: nat :: 0 < j < FIRST_DATA_PAGE && j != i ==> SamePage(s.disk, s'.disk, j)
  {
  }

  lemma CommitSpared(g: Geometry, s: Sys)
    requires Even(s.disk) && s.mem.active == s.dur.active
    ensures Spared(s, Commit(g, s).0)
  {
    hide Publish, MetaBytes, Page0Bytes, SamePage, Even;
    if s.mapped {
      var meta := NextGeneration(s.mem.meta);
      var target := s.mem.active.Other();
      var next := Mem(meta, target, s.mem.blocks, s.dur.dirs);
      var page0 := Page0Bytes(g, Super(g, target, g.crc(MetaBytes(g, meta))), s.mem.blocks);
      PublishDisk(s, target.PageId(), MetaBytes(g, meta), page0, next);
    } else {
      QuietAside(s, Commit(g, s).0);
      QuietIsSpared(s, Commit(g, s).0);
    }
  }

  lemma CommitDirQuiet(g: Geometry, s: Sys, b: nat)
    requires Even(s.disk) && s.mem.active == s.dur.active && b < |s.mem.blocks| == |s.mem.dirs|
    requires s.mem.blocks[b].Inactive() >= FIRST_DATA_PAGE
    ensures Quiet(s, CommitDir(g, s, b).0)
  {
    hide Publish, DirBytes, Page0Bytes, SamePage, Even, Store, Flush, Landed;
    if s.mapped {
      var r := s.mem.blocks[b];
      var buf := DirBytes(g, s.mem.dirs[b]);
      var stored := Flush(Store(s.disk, r.Inactive(), buf), r.Inactive());
      var checksum := g.crc(MappedPage(stored, s.mem.active.PageId()));
      var page0 := Page0Bytes(g, Super(g, s.mem.active, checksum), FlipBlock(s.mem.blocks, b));
      PublishDisk(s, r.Inactive(), buf, page0, Published(s, b));
      QuietByPages(s, CommitDir(g, s, b).0);
    } else {
      QuietAside(s, s);
    }
  }

  lemma QuietByPages(s: Sys, s': Sys)
    requires Even(s.disk) && Even(s'.disk)
    requires forall j: nat :: 0 < j < FIRST_DATA_PAGE ==> SamePage(s.disk, s'.disk, j)
    requires s'.dur.active == s.dur.active && s'.dur.meta == s.dur.meta && s'.mem.active == s.mem.active
    ensures Quiet(s, s')
  {
    hide SamePage;
  }

  // ── The calls ──────────────────────────────────────────────────────────────

  /** Where every call starts: pages behind the directory are no metadata pages. */
  ghost predicate Tidy(g: Geometry, s: Sys) {
    && Even(s.disk) && s.mem.active == s.dur.active && Consistent(g, s.mem) && |s.mem.blocks| == |s.mem.dirs|
  }

  lemma RawQuiet(g: Geometry, s: Sys, env: Env)
    requires Even(s.disk) && s.mem.meta.total >= 4
    ensures Quiet(s, AllocRaw(g, s, env).0) && AllocRaw(g, s, env).0.mem.meta.total >= 4
  {
    hide FreeSlot, Mark, GrowTo, SetLen, Quiet, Even;
    var total := s.mem.meta.total;
    var s1 := Step(s, SetLen(g, s.disk, total * 2));
    var s2 := Step(s1, SetLen(g, s1.disk, total));
    var s' := AllocRaw(g, s, env).0;
    QuietAside(s, s);
    ResizeQuiet(g, s, total * 2);
    QuietEven(s, s1);
    ResizeQuiet(g, s1, total);
    QuietTwice(s, s1, s2);
    RawKeepsDirs(g, s, env);
    RawTotal(g, s, env);
    QuietBeside(s, s, s');
    QuietBeside(s, s1, s');
    QuietBeside(s, s2, s');
  }

  lemma QuietEven(s: Sys, t: Sys)
    requires Quiet(s, t)
    ensures Even(t.disk) && (s.mem.active == s.dur.active ==> t.mem.active == t.dur.active)
  {
  }

  lemma QuietBeside(s: Sys, t: Sys, u: Sys)
    requires Quiet(s, t)
    ensures u.disk == t.disk && u.dur == t.dur && u.mem.active == t.mem.active ==> Quiet(s, u)
  {
  }

  lemma SparedBeside(s: Sys, t: Sys, u: Sys)
    requires Spared(s, t) && u.disk == t.disk && u.dur == t.dur && u.mem.active == t.mem.active
    ensures Spared(s, u)
  {
  }

  lemma RawTotal(g: Geometry, s: Sys, env: Env)
    ensures AllocRaw(g, s, env).0.mem.meta.total >= s.mem.meta.total
  {
    hide FreeSlot, SetLen;
  }

  lemma {:induction false} RawsQuiet(g: Geometry, s: Sys, env: Env, n: nat)
    requires Even(s.disk) && s.mem.meta.total >= 4
    ensures Quiet(s, AllocRaws(g, s, env, n).0)
    decreases n
  {
    hide AllocRaw, Quiet, Even;
    QuietAside(s, s);
    if n > 0 {
      RawQuiet(g, s, env);
      var s1 := AllocRaw(g, s, env).0;
      QuietEven(s, s1);
      RawsQuiet(g, s1, env, n - 1);
      QuietTwice(s, s1, AllocRaws(g, s1, env, n - 1).0);
    }
  }

  /** Raw allocations, and then a commit. */
  lemma RawsThenCommit(g: Geometry, s: Sys, env: Env, n: nat)
    requires Tidy(g, s)
    ensures
      var s1 := AllocRaws(g, s, env, n).0;
      Quiet(s, s1) && Spared(s, s1) && Spared(s, Commit(g, s1).0)
  {
    hide AllocRaws, Commit, Quiet, Spared, Even, Consistent;
    ConsistentMeta(g, s.mem);
    RawsQuiet(g, s, env, n);
    var s1 := AllocRaws(g, s, env, n).0;
    QuietEven(s, s1);
    QuietIsSpared(s, s1);
    CommitSpared(g, s1);
    QuietSpared(s, s1, Commit(g, s1).0);
  }

  lemma AllocSpared(g: Geometry, s: Sys, env: Env)
    requires Tidy(g, s)
    ensures Spared(s, Alloc(g, s, env).0)
  {
    hide AllocRaw, Commit, Quiet, Spared, Even, Consistent;
    ConsistentMeta(g, s.mem);
    RawQuiet(g, s, env);
    var s1 := AllocRaw(g, s, env).0;
    QuietEven(s, s1);
    QuietIsSpared(s, s1);
    CommitSpared(g, s1);
    QuietSpared(s, s1, Commit(g, s1).0);
  }

  lemma AllocBulkSpared(g: Geometry, s: Sys, env: Env, n: nat)
    requires Tidy(g, s)
    ensures Spared(s, AllocBulk(g, s, env, n).0)
  {
    hide AllocRaws, Commit, Quiet, Spared, Tidy, UnmarkAll;
    RecommitSpared(g, s, s.mem.meta);
    RawsThenCommit(g, s, env, n);
    var (s1, ids, r) := AllocRaws(g, s, env, n);
    SparedBeside(s, s1, WithMeta(s1, UnmarkAll(s1.mem.meta, ids)));
  }

  lemma RecommitSpared(g: Geometry, s: Sys, meta: Meta)
    requires Tidy(g, s)
    ensures Spared(s, s) && Spared(s, Commit(g, WithMeta(s, meta)).0)
  {
    hide Commit, Quiet, Spared, Even, Consistent;
    QuietAside(s, s);
    QuietIsSpared(s, s);
    QuietAside(s, WithMeta(s, meta));
    CommitSpared(g, WithMeta(s, meta));
    QuietSpared(s, WithMeta(s, meta), Commit(g, WithMeta(s, meta)).0);
  }

  lemma FreeSpared(g: Geometry, s: Sys, id: nat)
    requires Tidy(g, s)
    ensures Spared(s, Free(g, s, id).0)
  {
    hide Commit, Spared, Tidy, Unmark, Allocated;
    RecommitSpared(g, s, Unmark(s.mem.meta, id));
  }

  lemma FreeBulkSpared(g: Geometry, s: Sys, ids: seq<nat>)
    requires Tidy(g, s)
    ensures Spared(s, FreeBulk(g, s, ids).0)
  {
    hide Commit, Spared, Tidy, UnmarkAll, Sort, AdjacentEqual, CheckIds;
    RecommitSpared(g, s, UnmarkAll(s.mem.meta, Sort(ids, IdLeq)));
  }

  /** A bitmap commit, then a change of memory's directory, then its directory commit. */
  lemma CommitDirAfter(g: Geometry, s: Sys, t: Sys, m: Mem, b: nat)
    requires Spared(s, t) && m.active == t.mem.active && b < |m.blocks| == |m.dirs|
    requires m.blocks[b].Inactive() >= FIRST_DATA_PAGE
    ensures Spared(s, CommitDir(g, t.(mem := m), b).0)
  {
    hide CommitDir, Quiet;
    var u := t.(mem := m);
    QuietAside(t, u);
    SparedQuiet(s, t, u);
    CommitDirQuiet(g, u, b);
    SparedQuiet(s, u, CommitDir(g, u, b).0);
  }

  lemma InactiveAbove(g: Geometry, m: Mem, b: nat)
    requires Consistent(g, m) && b < |m.blocks|
    ensures m.blocks[b].Inactive() >= FIRST_DATA_PAGE
  {
    BlocksAboveReserved(m);
  }

  lemma InBlockSpared(g: Geometry, s: Sys, env: Env, b: nat)
    requires Tidy(g, s) && b < |s.mem.dirs|
    requires FirstFreeEntry(s.mem.dirs[b].entries) < |s.mem.dirs[b].entries|
    ensures Spared(s, AllocInBlock(g, s, env, b).0)
  {
    hide AllocInBlock, AllocRaws, Commit, CommitDir, Rewritten, NewEntry, FirstFreeEntry, Spared, Quiet, Even, Consistent,
         IdAt;
    RawsThenCommit(g, s, env, 2);
    AllocInBlockSteps(g, s, env, b);
    FreeEntryUnused(s.mem, b);
    InactiveAbove(g, s.mem, b);
    var (s1, ids, r) := AllocRaws(g, s, env, 2);
    if r.Ok? && s1.mapped {
      var s2 := Commit(g, s1).0;
      var e := NewEntry(g, s2.disk, ids[0], ids[1]);
      CommitDirAfter(g, s, s2, Rewritten(s2.mem, b, FirstFreeEntry(s.mem.dirs[b].entries), e), b);
    }
  }

  lemma NewBlockAbove(g: Geometry, m: Mem, a: nat, b: nat, e: DirEntry)
    requires b >= FIRST_DATA_PAGE
    ensures
      var m' := AppendBlock(g, m, a, b, e);
      |m'.blocks| == |m.blocks| + 1 && m'.blocks[|m.blocks|].Inactive() >= FIRST_DATA_PAGE
  {
  }

  lemma NewBlockSpared(g: Geometry, s: Sys, env: Env)
    requires Tidy(g, s)
    ensures Spared(s, AllocNewBlock(g, s, env).0)
  {
    hide AllocNewBlock, AllocRaws, Commit, CommitDir, AppendBlock, NewEntry, Spared, Quiet, Even, Consistent, IdAt,
         Reachable, Remapped, AllocatedSet, Exact;
    RawsThenCommit(g, s, env, 4);
    ConsistentMeta(g, s.mem);
    RawsOutcome(g, s, env, 4);
    AllocNewBlockSteps(g, s, env);
    var (s1, ids, r) := AllocRaws(g, s, env, 4);
    if r.Ok? && s1.mapped {
      var s2 := Commit(g, s1).0;
      var e := NewEntry(g, s2.disk, ids[2], ids[3]);
      assert ids[1] in ids;
      AppendFrame(g, s2.mem, ids[0], ids[1], e);
      NewBlockAbove(g, s2.mem, ids[0], ids[1], e);
      CommitDirAfter(g, s, s2, AppendBlock(g, s2.mem, ids[0], ids[1], e), |s.mem.blocks|);
    }
  }

  lemma AllocProtectedSpared(g: Geometry, s: Sys, env: Env)
    requires Tidy(g, s)
    ensures Spared(s, AllocProtected(g, s, env).0)
  {
    hide AllocProtected, AllocInBlock, AllocNewBlock, FirstFreeEntry, Spared, Consistent, Even, Commit;
    AllocProtectedCases(g, s, env);
    RecommitSpared(g, s, s.mem.meta);
    var b := FirstOpenBlock(s.mem.dirs);
    if b < |s.mem.dirs| {
      InBlockSpared(g, s, env, b);
    } else {
      NewBlockSpared(g, s, env);
    }
  }

  lemma FreeProtectedSpared(g: Geometry, s: Sys, id: nat)
    requires Tidy(g, s)
    ensures Spared(s, FreeProtected(g, s, id).0)
  {
    hide FreeProtected, Commit, CommitDir, Unmark, Rewritten, BlockOf, SlotOf, Spared, Quiet, Even, Consistent;
    RecommitSpared(g, s, s.mem.meta);
    if InUse(g, s.mem, id) {
      InUseHasEntry(g, s.mem, id);
      FreeProtectedSteps(g, s, id);
      var b, slot := BlockOf(g, id), SlotOf(g, id);
      var e := s.mem.dirs[b].entries[slot];
      var m := Rewritten(s.mem, b, slot, e.(inUse := false));
      InactiveAbove(g, s.mem, b);
      CommitDirFirst(g, s, m, b);
      var s1 := CommitDir(g, s.(mem := m), b).0;
      var s2 := WithMeta(s1, Unmark(Unmark(s1.mem.meta, e.pageA), e.pageB));
      if s.mapped {
        QuietBeside(s, s1, s2);
        QuietEven(s, s2);
        CommitSpared(g, s2);
        QuietSpared(s, s2, Commit(g, s2).0);
      } else {
        QuietAside(s, s.(mem := m));
        QuietIsSpared(s, s.(mem := m));
      }
    } else {
      FreeNotInUse(g, s, id);
    }
  }

  lemma CommitDirFirst(g: Geometry, s: Sys, m: Mem, b: nat)
    requires Even(s.disk) && s.mem.active == s.dur.active && m.active == s.mem.active && b < |m.blocks| == |m.dirs|
    requires m.blocks[b].Inactive() >= FIRST_DATA_PAGE
    ensures Quiet(s, CommitDir(g, s.(mem := m), b).0)
  {
    hide CommitDir, Quiet, Even;
    var u := s.(mem := m);
    QuietAside(s, u);
    CommitDirQuiet(g, u, b);
    QuietTwice(s, u, CommitDir(g, u, b).0);
  }

  lemma CopiesAbove(g: Geometry, m: Mem, id: nat)
    requires Consistent(g, m) && InUse(g, m, id)
    ensures InactivePhys(EntryOf(g, m, id)) >= FIRST_DATA_PAGE
  {
    hide BlockOf, SlotOf, Exact, MetaFits, Doubled;
    EntryPagesOwned(m, BlockOf(g, id), SlotOf(g, id));
  }

  lemma StageSpared(g: Geometry, s: Sys, id: nat, page: Page)
    requires Tidy(g, s)
    ensures Quiet(s, StageWrite(g, s, id, page).0) && Spared(s, StageWrite(g, s, id, page).0)
  {
    hide Quiet, Spared, Even, Store, EntryOf, InactivePhys, Consistent;
    QuietAside(s, s);
    if InUse(g, s.mem, id) {
      CopiesAbove(g, s.mem, id);
      StoreQuiet(s, InactivePhys(EntryOf(g, s.mem, id)), page);
    }
    QuietIsSpared(s, StageWrite(g, s, id, page).0);
  }

  lemma WriteProtectedSpared(g: Geometry, s: Sys, id: nat, page: Page)
    requires Tidy(g, s)
    ensures Spared(s, WriteProtected(g, s, id, page).0)
  {
    hide WriteProtected, StageWrite, CommitWrite, CommitDir, Flush, Flipped, Rewritten, BlockOf, SlotOf, InUse, InactivePhys,
         MappedPage, Quiet, Spared, Even, Consistent;
    WriteProtectedCases(g, s, id, page);
    StageFrame(g, s, id, page);
    StageSpared(g, s, id, page);
    RecommitSpared(g, s, s.mem.meta);
    if InUse(g, s.mem, id) && s.mapped {
      InUseHasEntry(g, s.mem, id);
      CopiesAbove(g, s.mem, id);
      var s0 := StageWrite(g, s, id, page).0;
      CommitWriteSteps(g, s0, id);
      var b, slot := BlockOf(g, id), SlotOf(g, id);
      var e := s.mem.dirs[b].entries[slot];
      var s1 := Step(s0, Flush(s0.disk, InactivePhys(e)));
      QuietEven(s, s0);
      FlushQuiet(s0, InactivePhys(e));
      QuietTwice(s, s0, s1);
      QuietEven(s, s1);
      InactiveAbove(g, s.mem, b);
      var m := Rewritten(s1.mem, b, slot, Flipped(e, g.crc(MappedPage(s1.disk, InactivePhys(e)))));
      CommitDirFirst(g, s1, m, b);
      QuietTwice(s, s1, CommitDir(g, s1.(mem := m), b).0);
      QuietIsSpared(s, CommitDir(g, s1.(mem := m), b).0);
    }
  }

  lemma WriteRegularSpared(g: Geometry, s: Sys, id: nat, page: Page)
    requires Tidy(g, s)
    ensures Spared(s, WriteRegular(s, id, page).0)
  {
    hide Quiet, Spared, Even, Store, Consistent;
    QuietAside(s, s);
    if id >= FIRST_DATA_PAGE {
      StoreQuiet(s, id, page);
    }
    QuietIsSpared(s, WriteRegular(s, id, page).0);
  }

  lemma CallSpares(g: Geometry, s: Sys, op: Op)
    requires Tidy(g, s)
    ensures Spared(s, Do(g, Begin(s), op).0)
  {
    hide Alloc, AllocBulk, Free, FreeBulk, WriteRegular, AllocProtected, FreeProtected, WriteProtected, StageWrite, Spared,
         Quiet, Even, Consistent;
    var t := Begin(s);
    QuietAside(s, t);
    match op {
      case OpAlloc(env) => AllocSpared(g, t, env);
      case OpAllocBulk(env, count) => AllocBulkSpared(g, t, env, count);
      case OpFree(id) => FreeSpared(g, t, id);
      case OpFreeBulk(ids) => FreeBulkSpared(g, t, ids);
      case OpWriteRegular(id, page) => WriteRegularSpared(g, t, id, page);
      case OpAllocProtected(env) => AllocProtectedSpared(g, t, env);
      case OpFreeProtected(id) => FreeProtectedSpared(g, t, id);
      case OpStage(id, page) => StageSpared(g, t, id, page);
      case OpWriteProtected(id, page) => WriteProtectedSpared(g, t, id, page);
    }
    QuietSpared(s, t, Do(g, t, op).0);
  }

  // ── Runs ───────────────────────────────────────────────────────────────────

  /** No call of the run was cut short; reopenings between calls may find any image of the file. */
  predicate Uninterrupted(es: seq<Event>) {
    forall i :: 0 <= i < |es| ==> !es[i].CrashDuring?
  }

  /** The bitmap that was durable before the last one was committed; before the first commit, the
      one `create` wrote to both pages. */
  ghost function Predecessor(ss: seq<Sys>): Meta
    requires ss != []
    decreases |ss|
  {
    var n := |ss| - 1;
    if n == 0 then NewMeta(4)
    else if ss[n].dur.active != ss[n - 1].dur.active then ss[n - 1].dur.meta
    else Predecessor(ss[..n])
  }

  /** The alternate page holds this bitmap, flushed. */
  ghost predicate Alongside(g: Geometry, s: Sys, prev: Meta) {
    && Even(s.disk) && MetaFits(g, prev)
    && s.disk.durable[Alternate(s)] == MetaBytes(g, prev) && Alternate(s) !in s.disk.dirty
  }

  lemma ActiveHeld(g: Geometry, s: Sys, v: View)
    requires Shows(g, s, v)
    ensures Even(s.disk) && s.mem.active == s.dur.active && MetaFits(g, s.dur.meta)
    ensures s.disk.durable[s.dur.active.PageId()] == MetaBytes(g, s.dur.meta)
    ensures s.dur.active.PageId() !in s.disk.dirty
  {
    hide MetaBytes, Page0, InUse, Exact, Doubled, Owned, DirShape, Holds, DirsLag;
  }

  lemma CallAlongside(g: Geometry, s: Sys, e: Event, s': Sys, v: View, prev: Meta)
    requires Shows(g, s, v) && Next(g, s, e, s') && e.Call? && Alongside(g, s, prev)
    ensures Alongside(g, s', if s'.dur.active != s.dur.active then s.dur.meta else prev)
  {
    hide *;
    CallOf(g, s, e, s');
    ActiveHeld(g, s, v);
    ShowsReady(g, s, v);
    SteadyMeta(g, s, v.pages);
    TidyFolds(g, s);
    CallSpares(g, s, e.op);
    SparedAlongside(g, s, s', prev);
  }

  lemma CallOf(g: Geometry, s: Sys, e: Event, s': Sys)
    requires Next(g, s, e, s') && e.Call?
    ensures |s.mem.blocks| == |s.mem.dirs| && s' == Do(g, Begin(s), e.op).0
  {
    hide Do, Capacity, OwnPages, EntryOf;
  }

  lemma TidyFolds(g: Geometry, s: Sys)
    requires Even(s.disk) && s.mem.active == s.dur.active && Consistent(g, s.mem) && |s.mem.blocks| == |s.mem.dirs|
    ensures Tidy(g, s)
  {
    hide Even, Consistent;
  }

  lemma SparedAlongside(g: Geometry, s: Sys, s': Sys, prev: Meta)
    requires Spared(s, s') && Alongside(g, s, prev) && MetaFits(g, s.dur.meta)
    requires s.disk.durable[s.dur.active.PageId()] == MetaBytes(g, s.dur.meta)
    requires s.dur.active.PageId() !in s.disk.dirty
    ensures Alongside(g, s', if s'.dur.active != s.dur.active then s.dur.meta else prev)
  {
    hide MetaBytes, MetaFits;
  }

  lemma RebootAlongside(g: Geometry, s: Sys, e: Event, s': Sys, v: View, prev: Meta)
    requires Shows(g, s, v) && Next(g, s, e, s') && e.Reboot? && Alongside(g, s, prev)
    ensures Alongside(g, s', prev) && s'.dur == s.dur
  {
    hide Shows, Steady, MetaBytes, MetaFits, Open;
    ShowsReady(g, s, v);
    CrashBetweenCalls(g, s, v.pages, e.file);
  }

  lemma CreatedAlongside(g: Geometry)
    ensures Alongside(g, Created(g), NewMeta(4))
  {
    hide MetaBytes, Page0, NewMeta, MetaFits;
    InitialFits(g);
  }

  lemma {:induction false} AlongsideThroughout(g: Geometry, ss: seq<Sys>, es: seq<Event>)
    requires IsRun(g, ss, es) && Uninterrupted(es)
    ensures Alongside(g, ss[|es|], Predecessor(ss))
    decreases |es|
  {
    hide Next, Shows, Alongside, Created, NewMeta;
    var views := RunRefines(g, ss, es);
    CreatedAlongside(g);
    if es != [] {
      var n := |es| - 1;
      AlongsideThroughout(g, ss[..n + 1], es[..n]);
      assert ss[..n + 1][n] == ss[n];
      if es[n].Call? {
        CallAlongside(g, ss[n], es[n], ss[n + 1], views[n], Predecessor(ss[..n + 1]));
      } else {
        RebootAlongside(g, ss[n], es[n], ss[n + 1], views[n], Predecessor(ss[..n + 1]));
      }
    }
  }

  /** In every state of every run in which no call was cut short, lost mappings included, the
      alternate metadata page holds the bitmap committed before the last one: when `open` rejects
      the active page it goes back to exactly that bitmap, and damage to the alternate changes
      nothing. */
  lemma PredecessorInRuns(g: Geometry, ss: seq<Sys>, es: seq<Event>, file: seq<Page>)
    requires IsRun(g, ss, es) && Uninterrupted(es)
    requires |file| == |ss[|es|].disk.durable|
    ensures
      var s := ss[|es|];
      && |s.disk.durable| >= 4 && s.disk.durable[Alternate(s)] == MetaBytes(g, Predecessor(ss))
      && (DiffersAt(s.disk.durable, file, Alternate(s)) ==> Open(g, file) == Ok(s.dur))
      && (DiffersAt(s.disk.durable, file, s.dur.active.PageId()) && Rejected(g, s.dur, file[s.dur.active.PageId()]) ==>
            Open(g, file) == Ok(Mem(Predecessor(ss), s.dur.active.Other(), s.dur.blocks, s.dur.dirs)))
  {
    hide IsRun, Shows, Steady, Open, DiffersAt, Rejected, MetaBytes, Consistent, MetaFits, Encodes, Predecessor, Uninterrupted;
    RunLength(g, ss, es);
    var views := RunRefines(g, ss, es);
    AlongsideThroughout(g, ss, es);
    var s := ss[|es|];
    ShowsReady(g, s, views[|es|]);
    SteadyEncodes(g, s, views[|es|].pages);
    DisksAreWhole(g, ss, es, |es|);
    DamagedFile(g, s.dur, Predecessor(ss), s.disk.durable, file);
  }
}
