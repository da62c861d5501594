/** The copy of a directory page that is not active: through every run of calls and reopenings it
    holds the page committed before the last one, and that is what a damaged active copy goes
    back to. */
module Copies {
  import opened Bytes
  import opened Results
  import opened Metadata
  import opened Layout
  import opened Disks
  import opened Recovery
  import opened Salvage
  import opened Sorting
  import opened PagerSpec
  import opened Ownership
  import opened Safety
  import opened RawAllocation
  import opened Entries
  import opened Operations
  import opened Bulk
  import opened Runs
  import opened Accounting
  import opened Durability
  import opened Frames
  import opened Contents
  import opened History

  // ── What a call does to the durable directory ──────────────────────────────

  ghost predicate SameDirs(x: Mem, y: Mem) {
    y.blocks == x.blocks && y.dirs == x.dirs
  }

  /** Block b turned to its other copy; every other block is as it was. */
  ghost predicate TurnedAt(x: Mem, y: Mem, b: nat) {
    && b < |x.blocks| && y.blocks == FlipBlock(x.blocks, b) && |y.dirs| == |x.dirs|
    && forall c :: 0 <= c < |x.dirs| && c != b ==> y.dirs[c] == x.dirs[c]
  }

  ghost predicate OneMoreBlock(x: Mem, y: Mem) {
    && |y.blocks| == |x.blocks| + 1 && y.blocks[..|x.blocks|] == x.blocks
    && |y.dirs| == |x.dirs| + 1 && y.dirs[..|x.dirs|] == x.dirs
  }

  /** The directory in memory and the durable one have the same blocks. */
  ghost predicate InStepDirs(s: Sys) {
    s.mem.blocks == s.dur.blocks && |s.mem.blocks| == |s.mem.dirs| == |s.dur.dirs|
  }

  lemma CommitDirs(g: Geometry, s: Sys)
    requires s.mem.blocks == s.dur.blocks
    ensures
      var s' := Commit(g, s).0;
      SameDirs(s.dur, s'.dur) && s'.mem.blocks == s.mem.blocks && s'.mem.dirs == s.mem.dirs
  {
    hide Commit;
    CommitFrame(g, s);
  }

  lemma CommitDirTurns(g: Geometry, s: Sys, b: nat)
    requires s.mapped && b < |s.mem.blocks| == |s.mem.dirs|
    requires |s.dur.blocks| == |s.dur.dirs| <= |s.mem.blocks| && s.mem.blocks[..|s.dur.blocks|] == s.dur.blocks
    ensures
      var s' := CommitDir(g, s, b).0;
      && (b < |s.dur.blocks| == |s.mem.blocks| ==> TurnedAt(s.dur, s'.dur, b))
      && (b == |s.dur.blocks| == |s.mem.blocks| - 1 ==> OneMoreBlock(s.dur, s'.dur))
  {
    hide CommitDir;
    CommitDirFramed(g, s, 0, b);
  }

  lemma RawsThenCommitDirs(g: Geometry, s: Sys, env: Env, k: nat)
    requires InStepDirs(s)
    ensures
      var s1 := AllocRaws(g, s, env, k).0;
      var s2 := Commit(g, s1).0;
      && SameDirs(s.dur, s1.dur) && SameDirs(s.dur, s2.dur)
      && s2.mem.blocks == s.mem.blocks && s2.mem.dirs == s.mem.dirs
  {
    hide AllocRaws, Commit;
    RawsKeepDirs(g, s, env, k);
    CommitDirs(g, AllocRaws(g, s, env, k).0);
  }

  lemma InBlockTurns(g: Geometry, s: Sys, env: Env, b: nat)
    requires InStepDirs(s) && b < |s.mem.dirs|
    requires FirstFreeEntry(s.mem.dirs[b].entries) < |s.mem.dirs[b].entries|
    ensures
      var (s', r) := AllocInBlock(g, s, env, b);
      if r.Ok? then TurnedAt(s.dur, s'.dur, b) else SameDirs(s.dur, s'.dur)
  {
    hide AllocInBlock, AllocRaws, Commit, CommitDir, Rewritten, NewEntry, FirstFreeEntry, IdAt;
    RawsThenCommitDirs(g, s, env, 2);
    AllocInBlockSteps(g, s, env, b);
    FreeEntryUnused(s.mem, b);
    var (s1, ids, r) := AllocRaws(g, s, env, 2);
    CommitFrame(g, s1);
    if r.Ok? && s1.mapped {
      var s2 := Commit(g, s1).0;
      var m := Rewritten(s2.mem, b, FirstFreeEntry(s.mem.dirs[b].entries), NewEntry(g, s2.disk, ids[0], ids[1]));
      CommitDirTurns(g, s2.(mem := m), b);
    }
  }

  lemma NewBlockTurns(g: Geometry, s: Sys, env: Env)
    requires InStepDirs(s)
    ensures
      var (s', r) := AllocNewBlock(g, s, env);
      if r.Ok? then OneMoreBlock(s.dur, s'.dur) else SameDirs(s.dur, s'.dur)
  {
    hide AllocNewBlock, AllocRaws, Commit, CommitDir, AppendBlock, NewEntry, IdAt;
    RawsThenCommitDirs(g, s, env, 4);
    AllocNewBlockSteps(g, s, env);
    var (s1, ids, r) := AllocRaws(g, s, env, 4);
    CommitFrame(g, s1);
    if r.Ok? && s1.mapped {
      var s2 := Commit(g, s1).0;
      var e := NewEntry(g, s2.disk, ids[2], ids[3]);
      AppendFrame(g, s2.mem, ids[0], ids[1], e);
      AppendPrefix(g, s2.mem, ids[0], ids[1], e);
      CommitDirTurns(g, s2.(mem := AppendBlock(g, s2.mem, ids[0], ids[1], e)), |s.mem.blocks|);
    }
  }

  lemma AppendPrefix(g: Geometry, m: Mem, a: nat, b: nat, e: DirEntry)
    ensures
      var m' := AppendBlock(g, m, a, b, e);
      |m'.blocks| == |m.blocks| + 1 && m'.blocks[..|m.blocks|] == m.blocks
  {
  }

  lemma FreeProtectedTurns(g: Geometry, s: Sys, id: nat)
    requires InStepDirs(s)
    ensures
      var (s', r) := FreeProtected(g, s, id);
      if r.Ok? then TurnedAt(s.dur, s'.dur, BlockOf(g, id)) else SameDirs(s.dur, s'.dur)
  {
    hide FreeProtected, Commit, CommitDir, Unmark, Rewritten, BlockOf, SlotOf;
    if InUse(g, s.mem, id) {
      InUseHasEntry(g, s.mem, id);
      FreeProtectedSteps(g, s, id);
      var b, slot := BlockOf(g, id), SlotOf(g, id);
      var e := s.mem.dirs[b].entries[slot];
      var m := Rewritten(s.mem, b, slot, e.(inUse := false));
      if s.mapped {
        CommitDirTurns(g, s.(mem := m), b);
        CommitDirFramed(g, s.(mem := m), 0, b);
        var s1 := CommitDir(g, s.(mem := m), b).0;
        CommitFrame(g, WithMeta(s1, Unmark(Unmark(s1.mem.meta, e.pageA), e.pageB)));
      }
    } else {
      FreeNotInUse(g, s, id);
    }
  }

  lemma WriteProtectedTurns(g: Geometry, s: Sys, id: nat, page: Page)
    requires InStepDirs(s)
    ensures
      var (s', r) := WriteProtected(g, s, id, page);
      if r.Ok? then TurnedAt(s.dur, s'.dur, BlockOf(g, id)) else SameDirs(s.dur, s'.dur)
  {
    hide WriteProtected, StageWrite, CommitWrite, CommitDir, Flush, Flipped, Rewritten, BlockOf, SlotOf, InUse, InactivePhys,
         MappedPage;
    WriteProtectedCases(g, s, id, page);
    StageFrame(g, s, id, page);
    if InUse(g, s.mem, id) && s.mapped {
      InUseHasEntry(g, s.mem, id);
      var s0 := StageWrite(g, s, id, page).0;
      CommitWriteSteps(g, s0, id);
      var b, slot := BlockOf(g, id), SlotOf(g, id);
      var e := s.mem.dirs[b].entries[slot];
      var x := InactivePhys(e);
      var s1 := Step(s0, Flush(s0.disk, x));
      var m := Rewritten(s1.mem, b, slot, Flipped(e, g.crc(MappedPage(s1.disk, x))));
      CommitDirTurns(g, s1.(mem := m), b);
    }
  }

  lemma AllocProtectedTurns(g: Geometry, s: Sys, env: Env)
    requires InStepDirs(s)
    ensures
      var (s', r) := AllocProtected(g, s, env);
      var b := FirstOpenBlock(s.mem.dirs);
      if r.Err? then SameDirs(s.dur, s'.dur)
      else if b < |s.mem.blocks| then TurnedAt(s.dur, s'.dur, b) else OneMoreBlock(s.dur, s'.dur)
  {
    hide AllocProtected, AllocInBlock, AllocNewBlock, FirstFreeEntry;
    AllocProtectedCases(g, s, env);
    var b := FirstOpenBlock(s.mem.dirs);
    if b < |s.mem.dirs| {
      InBlockTurns(g, s, env, b);
    } else {
      NewBlockTurns(g, s, env);
    }
  }

  lemma AllocDirs(g: Geometry, s: Sys, env: Env)
    requires InStepDirs(s)
    ensures SameDirs(s.dur, Alloc(g, s, env).0.dur)
  {
    hide AllocRaw, Commit;
    RawKeepsDirs(g, s, env);
    CommitDirs(g, AllocRaw(g, s, env).0);
  }

  lemma AllocBulkDirs(g: Geometry, s: Sys, env: Env, k: nat)
    requires InStepDirs(s)
    ensures SameDirs(s.dur, AllocBulk(g, s, env, k).0.dur)
  {
    hide AllocRaws, Commit, UnmarkAll;
    RawsThenCommitDirs(g, s, env, k);
  }

  lemma FreeDirs(g: Geometry, s: Sys, id: nat)
    requires InStepDirs(s)
    ensures SameDirs(s.dur, Free(g, s, id).0.dur)
  {
    hide Commit, Unmark, Allocated;
    CommitDirs(g, WithMeta(s, Unmark(s.mem.meta, id)));
  }

  lemma FreeBulkDirs(g: Geometry, s: Sys, ids: seq<nat>)
    requires InStepDirs(s)
    ensures SameDirs(s.dur, FreeBulk(g, s, ids).0.dur)
  {
    hide Commit, UnmarkAll, Sort, AdjacentEqual, CheckIds;
    CommitDirs(g, WithMeta(s, UnmarkAll(s.mem.meta, Sort(ids, IdLeq))));
  }

  /** A call that succeeds turns the block it commits to its other copy, or adds one; nothing else
      happens to the durable directory. */
  lemma CallTurns(g: Geometry, s: Sys, op: Op)
    requires InStepDirs(s)
    ensures
      var (s', r) := Do(g, Begin(s), op);
      var b := BlockWritten(g, s, op);
      if !r.Succeeded() || !(op.OpAllocProtected? || op.OpFreeProtected? || op.OpWriteProtected?) then SameDirs(s.dur, s'.dur)
      else if b < |s.mem.blocks| then TurnedAt(s.dur, s'.dur, b) else OneMoreBlock(s.dur, s'.dur)
  {
    hide Alloc, AllocBulk, Free, FreeBulk, AllocProtected, FreeProtected, WriteProtected, EntryOf, InactivePhys, BlockOf,
         FirstOpenBlock, TurnedAt, OneMoreBlock;
    var t := Begin(s);
    match op
    case OpAlloc(env) => AllocDirs(g, t, env);
    case OpAllocBulk(env, count) => AllocBulkDirs(g, t, env, count);
    case OpFree(id) => FreeDirs(g, t, id);
    case OpFreeBulk(ids) => FreeBulkDirs(g, t, ids);
    case OpWriteRegular(id, page) =>
    case OpAllocProtected(env) => AllocProtectedTurns(g, t, env);
    case OpFreeProtected(id) =>
      FreeProtectedTurns(g, t, id);
      TurnedInside(g, t, Do(g, t, op).0, BlockOf(g, id), Do(g, t, op).1.Succeeded());
    case OpStage(id, page) => StageFrame(g, t, id, page);
    case OpWriteProtected(id, page) =>
      WriteProtectedTurns(g, t, id, page);
      TurnedInside(g, t, Do(g, t, op).0, BlockOf(g, id), Do(g, t, op).1.Succeeded());
  }

  lemma TurnedInside(g: Geometry, s: Sys, s': Sys, b: nat, ok: bool)
    requires InStepDirs(s) && (ok ==> TurnedAt(s.dur, s'.dur, b))
    ensures ok ==> b < |s.mem.blocks|
  {
  }

  // ── The spare copy survives the call ───────────────────────────────────────

  predicate HasTurned(x: Mem, y: Mem, c: nat)
    requires c < |x.blocks| && c < |y.blocks|
  {
    y.blocks[c].active != x.blocks[c].active
  }

  /** What a call does to block c of the durable directory. */
  lemma BlockAfter(g: Geometry, s: Sys, op: Op, c: nat)
    requires InStepDirs(s) && c < |s.dur.blocks|
    ensures
      var (s', r) := Do(g, Begin(s), op);
      var ok, b := r.Succeeded(), BlockWritten(g, s, op);
      && |s'.dur.blocks| >= |s.dur.blocks| && |s'.dur.dirs| == |s'.dur.blocks|
      && s'.dur.blocks[c].pageA == s.dur.blocks[c].pageA && s'.dur.blocks[c].pageB == s.dur.blocks[c].pageB
      && (HasTurned(s.dur, s'.dur, c) ==> c == b && ok)
      && (!HasTurned(s.dur, s'.dur, c) ==>
            s'.dur.blocks[c] == s.dur.blocks[c] && s'.dur.dirs[c] == s.dur.dirs[c] && (ok ==> c != b))
  {
    hide Do, BlockOf, FirstOpenBlock;
    CallTurns(g, s, op);
    var s' := Do(g, Begin(s), op).0;
    if |s'.dur.blocks| > |s.dur.blocks| {
      assert s'.dur.blocks[..|s.dur.blocks|][c] == s.dur.blocks[c];
      assert s'.dur.dirs[..|s.dur.dirs|][c] == s.dur.dirs[c];
    }
  }

  lemma CopyOf(m: Mem, c: nat)
    requires Owned(m) && c < |m.blocks|
    ensures
      var r := m.blocks[c];
      && r.Active() != r.Inactive()
      && r.Active() >= FIRST_DATA_PAGE && r.Inactive() >= FIRST_DATA_PAGE
      && r.Active() in AllocatedSet(m.meta) && r.Inactive() in AllocatedSet(m.meta)
      && r.Active() in Referenced(m) && r.Inactive() in Referenced(m)
  {
    hide BlockPages, BackingPages;
    PairDistinct(m, c);
    BlockReferenced(m, c);
    var r := m.blocks[c];
    assert r.Active() in RefBag(r) && r.Inactive() in RefBag(r);
    assert r.Active() in Referenced(m) && r.Inactive() in Referenced(m);
    InAllocatedSet(m.meta, r.Active());
    InAllocatedSet(m.meta, r.Inactive());
  }

  lemma CopyApart(m: Mem, c: nat, b: nat)
    requires Owned(m) && c < |m.blocks| && b < |m.blocks| && b != c
    ensures m.blocks[c].Active() != m.blocks[b].Inactive() && m.blocks[c].Inactive() != m.blocks[b].Inactive()
  {
    hide Owned;
    BlocksDistinct(m, b, c);
    assert m.blocks[b].Inactive() in RefBag(m.blocks[b]);
    assert m.blocks[c].Active() in RefBag(m.blocks[c]) && m.blocks[c].Inactive() in RefBag(m.blocks[c]);
  }

  lemma CopyApartEntry(g: Geometry, m: Mem, c: nat, id: nat)
    requires Owned(m) && c < |m.blocks| && InUse(g, m, id)
    ensures
      var p := InactivePhys(EntryOf(g, m, id));
      m.blocks[c].Active() != p && m.blocks[c].Inactive() != p
  {
    hide Owned, BlockOf, SlotOf;
    var e := EntryOf(g, m, id);
    BlocksAndEntriesDistinct(m, c, BlockOf(g, id), SlotOf(g, id));
    assert InactivePhys(e) in EntryBag(e);
    assert m.blocks[c].Active() in RefBag(m.blocks[c]) && m.blocks[c].Inactive() in RefBag(m.blocks[c]);
  }

  lemma SpareNotWritten(g: Geometry, s: Sys, op: Op, c: nat, p: nat)
    requires InStepDirs(s) && Owned(s.mem) && c < |s.mem.blocks|
    requires
      var ok := Do(g, Begin(s), op).1.Succeeded();
      p == if ok && c == BlockWritten(g, s, op) then s.mem.blocks[c].Active() else s.mem.blocks[c].Inactive()
    requires op.OpWriteRegular? ==> op.id != p
    ensures p in AllocatedSet(s.mem.meta) && p !in Written(g, s, op, Do(g, Begin(s), op).1.Succeeded())
  {
    hide Do, BlockOf, FirstOpenBlock, Owned, InactivePhys, EntryOf, AllocatedSet, Referenced;
    CopyOf(s.mem, c);
    SuccessInUse(g, s, op);
    var b := BlockWritten(g, s, op);
    if b < |s.mem.blocks| && b != c {
      CopyApart(s.mem, c, b);
    }
    if Do(g, Begin(s), op).1.Succeeded() && (op.OpStage? || op.OpWriteProtected?) {
      CopyApartEntry(g, s.mem, c, op.id);
    }
  }

  /** Whatever a call does to a directory block, the copy that is spare afterwards has not been
      written to. */
  lemma SpareCopyKept(g: Geometry, s: Sys, op: Op, v: View, c: nat)
    requires Shows(g, s, v) && Allowed(g, s, op) && c < |s.dur.blocks|
    ensures
      var s' := Do(g, Begin(s), op).0;
      && c < |s'.dur.blocks| == |s'.dur.dirs| && |s.dur.blocks| == |s.dur.dirs|
      && s'.dur.blocks[c].Inactive() ==
         (if HasTurned(s.dur, s'.dur, c) then s.dur.blocks[c].Active() else s.dur.blocks[c].Inactive())
      && SameAt(s.disk, s'.disk, s'.dur.blocks[c].Inactive())
      && (!HasTurned(s.dur, s'.dur, c) ==> s'.dur.dirs[c] == s.dur.dirs[c])
  {
    hide Do, Shows, Steady, Consistent, SameAt, Written, Placed, Capacity, EntryOf, Owned, BlockWritten, Referenced, AllocatedSet;
    ShowsReady(g, s, v);
    SteadyDirs(g, s, v.pages);
    SteadyMeta(g, s, v.pages);
    ConsistentOwned(g, s.mem);
    ConsistentOwned(g, Held(s));
    SteadyPlaced(g, s, v.pages);
    BlockAfter(g, s, op, c);
    var s' := Do(g, Begin(s), op).0;
    var p := s'.dur.blocks[c].Inactive();
    OwnedCopies(s, c);
    SpareNotWritten(g, s, op, c, p);
    CallFrame(g, s, op);
  }

  lemma OwnedCopies(s: Sys, c: nat)
    requires InStepDirs(s) && Owned(Held(s)) && c < |s.dur.blocks|
    ensures s.dur.blocks[c].Active() in Referenced(s.dur) && s.dur.blocks[c].Inactive() in Referenced(s.dur)
  {
    hide Referenced, Owned;
    CopyOf(Held(s), c);
    SameDirectory(s.dur, Held(s));
  }

  lemma SteadyDirs(g: Geometry, s: Sys, a: Abs)
    requires Steady(g, s, a)
    ensures InStepDirs(s)
  {
    hide Durable, Exact, MetaFits, Doubled, DirShape, Owned;
  }

  // ── Runs ───────────────────────────────────────────────────────────────────

  /** The directory page of block c committed before the last one, if there was one. */
  ghost function Prior(ss: seq<Sys>, c: nat): Option<DirPage>
    requires ss != [] && forall i :: 0 <= i < |ss| ==> |ss[i].dur.blocks| == |ss[i].dur.dirs|
    decreases |ss|
  {
    var n := |ss| - 1;
    if n == 0 || c >= |ss[n - 1].dur.blocks| then None
    else if c < |ss[n].dur.blocks| && HasTurned(ss[n - 1].dur, ss[n].dur, c)
    then Some(ss[n - 1].dur.dirs[c])
    else Prior(ss[..n], c)
  }

  /** The spare copy of block c holds this page, flushed. */
  ghost predicate Behind(g: Geometry, s: Sys, c: nat, d: DirPage)
    requires c < |s.dur.blocks|
  {
    var p := s.dur.blocks[c].Inactive();
    && p < |s.disk.durable| && s.disk.durable[p] == DirBytes(g, d) && p !in s.disk.dirty && DirFits(g, d)
  }

  ghost predicate AllBehind(g: Geometry, s: Sys, ss: seq<Sys>)
    requires ss != [] && forall i :: 0 <= i < |ss| ==> |ss[i].dur.blocks| == |ss[i].dur.dirs|
  {
    forall c: nat :: c < |s.dur.blocks| && Prior(ss, c).Some? ==> Behind(g, s, c, Prior(ss, c).value)
  }

  lemma ActiveCopyHeld(g: Geometry, s: Sys, a: Abs, c: nat)
    requires Steady(g, s, a) && c < |s.dur.blocks|
    ensures |s.dur.blocks| == |s.dur.dirs|
    ensures
      var p := s.dur.blocks[c].Active();
      && p < |s.disk.durable| && s.disk.durable[p] == DirBytes(g, s.dur.dirs[c]) && p !in s.disk.dirty
      && DirFits(g, s.dur.dirs[c])
  {
    hide Consistent, Holds, DirBytes, DirFits, Agrees, Sized, Page0, MetaBytes, MetaFits, IndexFits;
    SteadyEncodes(g, s, a);
    ConsistentFits(g, s.dur);
    SteadyCore(g, s, a);
  }

  lemma SteadyCore(g: Geometry, s: Sys, a: Abs)
    requires Steady(g, s, a)
    ensures CleanCore(s.dur, s.disk)
  {
    hide Consistent, Holds, Encodes, CleanCore, Agrees, Sized;
  }

  /** What every event does: a block that turned leaves its page behind, any other keeps what it
      has behind. */
  ghost predicate LeavesBehind(g: Geometry, s: Sys, s': Sys) {
    && |s.dur.blocks| == |s.dur.dirs| && |s.dur.blocks| <= |s'.dur.blocks| == |s'.dur.dirs|
    && (forall c: nat :: c < |s.dur.blocks| && HasTurned(s.dur, s'.dur, c) ==> Behind(g, s', c, s.dur.dirs[c]))
    && forall c: nat, d :: c < |s.dur.blocks| && !HasTurned(s.dur, s'.dur, c) && Behind(g, s, c, d) ==> Behind(g, s', c, d)
  }

  lemma BlockLeaves(g: Geometry, s: Sys, op: Op, v: View, c: nat)
    requires Shows(g, s, v) && Allowed(g, s, op) && c < |s.dur.blocks|
    ensures
      var s' := Do(g, Begin(s), op).0;
      && c < |s'.dur.blocks| && |s.dur.blocks| == |s.dur.dirs|
      && (HasTurned(s.dur, s'.dur, c) ==> Behind(g, s', c, s.dur.dirs[c]))
      && forall d :: !HasTurned(s.dur, s'.dur, c) && Behind(g, s, c, d) ==> Behind(g, s', c, d)
  {
    hide Do, Shows, Steady, Capacity, EntryOf, DirBytes, DirFits;
    ShowsReady(g, s, v);
    SpareCopyKept(g, s, op, v, c);
    ActiveCopyHeld(g, s, v.pages, c);
  }

  lemma CallLeaves(g: Geometry, s: Sys, op: Op, v: View)
    requires Shows(g, s, v) && Allowed(g, s, op)
    ensures LeavesBehind(g, s, Do(g, Begin(s), op).0)
  {
    hide Do, Shows, Steady, Capacity, EntryOf, Behind, HasTurned;
    ShowsReady(g, s, v);
    SteadyDirs(g, s, v.pages);
    CallTurns(g, s, op);
    forall c: nat | c < |s.dur.blocks|
      ensures
        var s' := Do(g, Begin(s), op).0;
        && c < |s'.dur.blocks|
        && (HasTurned(s.dur, s'.dur, c) ==> Behind(g, s', c, s.dur.dirs[c]))
        && forall d :: !HasTurned(s.dur, s'.dur, c) && Behind(g, s, c, d) ==> Behind(g, s', c, d)
    {
      BlockLeaves(g, s, op, v, c);
    }
  }

  lemma RebootLeaves(g: Geometry, s: Sys, file: seq<Page>, v: View)
    requires Shows(g, s, v) && CrashImage(g, s.disk, file) && Open(g, file).Ok?
    ensures LeavesBehind(g, s, Boot(Open(g, file).value, file))
  {
    hide Shows, Steady, Open, DirBytes, DirFits;
    ShowsReady(g, s, v);
    SteadyDirs(g, s, v.pages);
    CrashBetweenCalls(g, s, v.pages, file);
    forall c: nat | c < |s.dur.blocks|
      ensures s.dur.blocks[c].Inactive() > 0
    {
      SpareAboveZero(g, s, v.pages, c);
    }
  }

  lemma EventLeaves(g: Geometry, s: Sys, e: Event, s': Sys, v: View)
    requires Shows(g, s, v) && Next(g, s, e, s') && !e.CrashDuring?
    ensures LeavesBehind(g, s, s')
  {
    hide Shows, Do, Open, CrashImage, LeavesBehind, Capacity, OwnPages, EntryOf;
    match e
    case Call(op, reply) => CallLeaves(g, s, op, v);
    case Reboot(file) => RebootLeaves(g, s, file, v);
  }

  /** One more event. */
  lemma StepBehind(g: Geometry, ss: seq<Sys>, s': Sys)
    requires ss != [] && forall i :: 0 <= i < |ss| ==> |ss[i].dur.blocks| == |ss[i].dur.dirs|
    requires AllBehind(g, ss[|ss| - 1], ss) && LeavesBehind(g, ss[|ss| - 1], s')
    ensures |s'.dur.blocks| == |s'.dur.dirs| && AllBehind(g, s', ss + [s'])
  {
    hide Behind, HasTurned, Prior;
    var s, all := ss[|ss| - 1], ss + [s'];
    forall c: nat | c < |s'.dur.blocks| && Prior(all, c).Some?
      ensures Behind(g, s', c, Prior(all, c).value)
    {
      PriorStep(ss, s', c);
      if !HasTurned(s.dur, s'.dur, c) {
        assert Behind(g, s, c, Prior(ss, c).value);
      }
    }
  }

  lemma PriorStep(ss: seq<Sys>, s': Sys, c: nat)
    requires ss != [] && forall i :: 0 <= i < |ss| ==> |ss[i].dur.blocks| == |ss[i].dur.dirs|
    requires |s'.dur.blocks| == |s'.dur.dirs| && c < |s'.dur.blocks|
    ensures
      var s := ss[|ss| - 1];
      Prior(ss + [s'], c) ==
      if c >= |s.dur.blocks| then None
      else if HasTurned(s.dur, s'.dur, c) then Some(s.dur.dirs[c]) else Prior(ss, c)
  {
    hide HasTurned;
    var all := ss + [s'];
    assert all[..|ss|] == ss && all[|ss|] == s' && all[|ss| - 1] == ss[|ss| - 1];
  }

  lemma SpareAboveZero(g: Geometry, s: Sys, a: Abs, c: nat)
    requires Steady(g, s, a) && c < |s.dur.blocks|
    ensures s.dur.blocks[c].Inactive() > 0
  {
    hide Steady, Owned, Consistent;
    SteadyMeta(g, s, a);
    ConsistentOwned(g, Held(s));
    CopyOf(Held(s), c);
  }

  lemma SizesInRuns(g: Geometry, ss: seq<Sys>, es: seq<Event>)
    requires IsRun(g, ss, es)
    ensures |ss| == |es| + 1 && forall i :: 0 <= i < |ss| ==> |ss[i].dur.blocks| == |ss[i].dur.dirs|
  {
    hide IsRun, Shows, Steady;
    RunLength(g, ss, es);
    var views := RunRefines(g, ss, es);
    forall i | 0 <= i < |ss|
      ensures |ss[i].dur.blocks| == |ss[i].dur.dirs|
    {
      ShowsReady(g, ss[i], views[i]);
      SteadyDirs(g, ss[i], views[i].pages);
    }
  }

  lemma {:induction false} BehindThroughout(g: Geometry, ss: seq<Sys>, es: seq<Event>)
    requires IsRun(g, ss, es) && Uninterrupted(es)
    ensures |ss| == |es| + 1 && forall i :: 0 <= i < |ss| ==> |ss[i].dur.blocks| == |ss[i].dur.dirs|
    ensures AllBehind(g, ss[|es|], ss)
    decreases |es|
  {
    hide Next, Shows, AllBehind, LeavesBehind, Created;
    SizesInRuns(g, ss, es);
    var views := RunRefines(g, ss, es);
    if es == [] {
      NothingBehind(g, ss);
    } else {
      var n := |es| - 1;
      BehindThroughout(g, ss[..n + 1], es[..n]);
      assert ss[..n + 1][n] == ss[n] && ss[..n + 1] + [ss[n + 1]] == ss;
      EventLeaves(g, ss[n], es[n], ss[n + 1], views[n]);
      StepBehind(g, ss[..n + 1], ss[n + 1]);
    }
  }

  lemma NothingBehind(g: Geometry, ss: seq<Sys>)
    requires |ss| == 1 && forall i :: 0 <= i < |ss| ==> |ss[i].dur.blocks| == |ss[i].dur.dirs|
    ensures AllBehind(g, ss[0], ss)
  {
    hide Behind;
  }

  /** The file apart from the active copies of the blocks in `bad`, which are damaged. */
  ghost predicate DamagedAt(g: Geometry, s: Sys, file: seq<Page>, bad: set<nat>) {
    && |file| == |s.disk.durable|
    && (forall c :: c in bad ==> c < |s.dur.blocks|)
    && (forall c: nat :: c in bad && s.dur.blocks[c].Active() < |file| ==> Damaged(g, file[s.dur.blocks[c].Active()]))
    && forall p: nat :: p < |file| && (forall c :: c in bad ==> p != s.dur.blocks[c].Active()) ==> file[p] == s.disk.durable[p]
  }

  /** The directory pages after going back: the prior page of every damaged block. */
  ghost function WentBack(ss: seq<Sys>, bad: set<nat>): seq<DirPage>
    requires ss != [] && forall i :: 0 <= i < |ss| ==> |ss[i].dur.blocks| == |ss[i].dur.dirs|
    requires forall c :: c in bad ==> Prior(ss, c).Some?
  {
    var dirs := ss[|ss| - 1].dur.dirs;
    seq(|dirs|, c requires 0 <= c < |dirs| => if c in bad then Prior(ss, c).value else dirs[c])
  }

  lemma CoreUndamaged(g: Geometry, s: Sys, a: Abs, file: seq<Page>, bad: set<nat>)
    requires Steady(g, s, a) && DamagedAt(g, s, file, bad)
    ensures HoldsCore(g, s.dur, file)
  {
    hide Consistent, Owned, DirBytes, Damaged, Page0, MetaBytes, MetaFits, IndexFits, Steady;
    SteadyEncodes(g, s, a);
    ConsistentFits(g, s.dur);
    SteadyMeta(g, s, a);
    forall c | c in bad
      ensures s.dur.blocks[c].Active() >= FIRST_DATA_PAGE
    {
      ConsistentOwned(g, Held(s));
      CopyOf(Held(s), c);
    }
  }

  lemma HeldOwned(g: Geometry, s: Sys, a: Abs)
    requires Steady(g, s, a)
    ensures Owned(Held(s)) && Held(s).blocks == s.dur.blocks
  {
    hide Steady, Owned, Consistent;
    SteadyMeta(g, s, a);
    ConsistentOwned(g, Held(s));
  }

  lemma ActivesApart(m: Mem, c: nat, b: nat)
    requires Owned(m) && c < |m.blocks| && b < |m.blocks|
    ensures m.blocks[c].Inactive() != m.blocks[b].Active()
    ensures c != b ==> m.blocks[c].Active() != m.blocks[b].Active()
  {
    hide Owned, Referenced, AllocatedSet;
    CopyOf(m, c);
    if c != b {
      BlocksDistinct(m, b, c);
      assert m.blocks[b].Active() in RefBag(m.blocks[b]);
      assert m.blocks[c].Active() in RefBag(m.blocks[c]) && m.blocks[c].Inactive() in RefBag(m.blocks[c]);
    }
  }

  lemma CopiesOfOthers(g: Geometry, s: Sys, a: Abs, c: nat, b: nat)
    requires Steady(g, s, a) && c < |s.dur.blocks| && b < |s.dur.blocks|
    ensures s.dur.blocks[c].Inactive() != s.dur.blocks[b].Active()
    ensures c != b ==> s.dur.blocks[c].Active() != s.dur.blocks[b].Active()
  {
    hide *;
    HeldOwned(g, s, a);
    ActivesApart(Held(s), c, b);
  }

  lemma BlockSalvageable(g: Geometry, s: Sys, a: Abs, file: seq<Page>, bad: set<nat>, c: nat, d: DirPage)
    requires Steady(g, s, a) && DamagedAt(g, s, file, bad) && c < |s.dur.blocks| == |s.dur.dirs|
    requires if c in bad then Behind(g, s, c, d) else d == s.dur.dirs[c]
    ensures Salvageable(g, file, s.dur.blocks[c], c in bad, d)
  {
    hide Steady, DirBytes, Damaged, DirFits;
    ActiveCopyHeld(g, s, a, c);
    SpareInFile(g, s, a, c);
    forall b | b in bad
      ensures s.dur.blocks[c].Inactive() != s.dur.blocks[b].Active()
      ensures c != b ==> s.dur.blocks[c].Active() != s.dur.blocks[b].Active()
    {
      CopiesOfOthers(g, s, a, c, b);
    }
  }

  lemma SpareInFile(g: Geometry, s: Sys, a: Abs, c: nat)
    requires Steady(g, s, a) && c < |s.dur.blocks|
    ensures s.dur.blocks[c].Inactive() < |s.disk.durable|
  {
    hide Owned, Consistent, Exact, Survives, Sized, DirsLag;
    SteadyMeta(g, s, a);
    ConsistentOwned(g, Held(s));
    BlockPageOwned(Held(s), c);
    SteadyParts(g, s, a);
  }

  /** In every state of every run in which no call was cut short, lost mappings included: when the
      active copies of some directory blocks are damaged, `open` goes back to exactly the page each
      of them held before its last commit, turns the selector of those blocks, and finds everything
      else as it was. */
  lemma SalvagedInRuns(g: Geometry, ss: seq<Sys>, es: seq<Event>, file: seq<Page>, bad: set<nat>)
    requires IsRun(g, ss, es) && Uninterrupted(es) && DamagedAt(g, ss[|es|], file, bad)
    ensures |ss| == |es| + 1 && forall i :: 0 <= i < |ss| ==> |ss[i].dur.blocks| == |ss[i].dur.dirs|
    ensures
      var m := ss[|es|].dur;
      (forall c :: c in bad ==> Prior(ss, c).Some?) ==>
        Open(g, file) == Ok(Mem(m.meta, m.active, TurnedAll(m.blocks, bad), WentBack(ss, bad)))
  {
    hide IsRun, Shows, Steady, Open, DamagedAt, Uninterrupted, Behind, HoldsCore, Salvageable;
    SizesInRuns(g, ss, es);
    BehindThroughout(g, ss, es);
    var views := RunRefines(g, ss, es);
    var s := ss[|es|];
    ShowsReady(g, s, views[|es|]);
    if forall c :: c in bad ==> Prior(ss, c).Some? {
      var dirs := WentBack(ss, bad);
      CoreUndamaged(g, s, views[|es|].pages, file, bad);
      forall c | 0 <= c < |dirs|
        ensures Salvageable(g, file, s.dur.blocks[c], c in bad, dirs[c])
      {
        BlockSalvageable(g, s, views[|es|].pages, file, bad, c, dirs[c]);
      }
      OpenSalvages(g, s.dur, file, bad, dirs);
    }
  }

  lemma CoreApart(g: Geometry, s: Sys, a: Abs, file: seq<Page>, c: nat)
    requires Steady(g, s, a) && c < |s.dur.blocks| && |file| == |s.disk.durable|
    requires
      var r := s.dur.blocks[c];
      forall p: nat :: p < |file| && p != r.pageA && p != r.pageB ==> file[p] == s.disk.durable[p]
    ensures HoldsCore(g, s.dur, file)
    ensures s.dur.blocks[c].pageA < |file| && s.dur.blocks[c].pageB < |file|
  {
    hide Consistent, Owned, DirBytes, Page0, MetaBytes, MetaFits, IndexFits, Steady;
    SteadyEncodes(g, s, a);
    ConsistentFits(g, s.dur);
    SteadyMeta(g, s, a);
    ConsistentOwned(g, Held(s));
    CopyOf(Held(s), c);
    SpareInFile(g, s, a, c);
    ActiveCopyHeld(g, s, a, c);
  }

  /** In every state of every run, crashes included: when both copies of a directory block are
      damaged, `open` fails. */
  lemma LostInRuns(g: Geometry, ss: seq<Sys>, es: seq<Event>, file: seq<Page>, c: nat)
    requires IsRun(g, ss, es) && |file| == |ss[|es|].disk.durable| && c < |ss[|es|].dur.blocks|
    requires
      var s := ss[|es|];
      var r := s.dur.blocks[c];
      && (forall p: nat :: p < |file| && p != r.pageA && p != r.pageB ==> file[p] == s.disk.durable[p])
      && (r.pageA < |file| ==> Damaged(g, file[r.pageA])) && (r.pageB < |file| ==> Damaged(g, file[r.pageB]))
    ensures Open(g, file) == Err(CorruptProtectedDirectory)
  {
    hide IsRun, Shows, Steady, Open, HoldsCore, Damaged;
    RunLength(g, ss, es);
    var views := RunRefines(g, ss, es);
    var s := ss[|es|];
    ShowsReady(g, s, views[|es|]);
    CoreApart(g, s, views[|es|].pages, file, c);
    OpenGivesUp(g, s.dur, file, c);
  }
}
