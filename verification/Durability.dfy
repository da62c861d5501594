/** What the file says about memory: after calls without I/O errors `open` rebuilds memory
    exactly, the alternate metadata page holds the predecessor, a crash in the middle of a
    call loses no allocation the call did not free, and the file always covers its pages. */
module Durability {
  import opened Bytes
  import opened Results
  import opened Metadata
  import opened Layout
  import opened Disks
  import opened Recovery
  import opened Sorting
  import opened PagerSpec
  import opened Ownership
  import opened Safety
  import opened DirSafety
  import opened RawAllocation
  import opened Entries
  import opened Operations
  import opened Bulk
  import opened Runs

  // ── Memory and disk agree ──────────────────────────────────────────────────

  predicate IoError(e: Error) {
    e.Io? || e.Unavailable?
  }

  predicate IoFailed(r: Reply) {
    match r
    case Unit(u) => u.Err? && IoError(u.error)
    case Id(q) => q.Err? && IoError(q.error)
    case Ids(rs) => rs.Err? && IoError(rs.error)
  }

  /** A directory commit on top of the durable bitmap, and of the durable other blocks, makes
      memory durable. */
  lemma CommitDirMemory(g: Geometry, s: Sys, b: nat)
    requires b < |s.mem.blocks| == |s.mem.dirs| && s.mapped
    requires s.mem.meta == s.dur.meta && Landed(s, b) == s.mem.dirs
    ensures
      var (s', r) := CommitDir(g, s, b);
      r.Ok? && s'.mem == s'.dur && s'.mapped
  {
    hide Page0Bytes, DirBytes, Store, Flush, Landed;
  }

  lemma LandedRewritten(s: Sys, m: Mem, b: nat, slot: nat, e: DirEntry)
    requires m.dirs == s.dur.dirs && HasEntry(m, b, slot)
    ensures
      var m' := Rewritten(m, b, slot, e);
      b < |m'.dirs| && Landed(s.(mem := m'), b) == m'.dirs
  {
  }

  lemma LandedAppended(g: Geometry, s: Sys, m: Mem, p: nat, q: nat, e: DirEntry)
    requires m.dirs == s.dur.dirs
    ensures
      var m' := AppendBlock(g, m, p, q, e);
      |m.dirs| < |m'.dirs| && Landed(s.(mem := m'), |m.dirs|) == m'.dirs
  {
    hide NewDirPage;
  }

  lemma RawError(g: Geometry, s: Sys, env: Env)
    ensures AllocRaw(g, s, env).1.Err? ==> IoError(AllocRaw(g, s, env).1.error)
  {
    hide FreeSlot, Mark, GrowTo, SetLen;
  }

  lemma {:induction false} RawsError(g: Geometry, s: Sys, env: Env, n: nat)
    ensures AllocRaws(g, s, env, n).2.Err? ==> IoError(AllocRaws(g, s, env, n).2.error)
    decreases n
  {
    hide AllocRaw;
    if n > 0 {
      RawError(g, s, env);
      RawsError(g, AllocRaw(g, s, env).0, env, n - 1);
    }
  }

  lemma InBlockMirrors(g: Geometry, s: Sys, env: Env, b: nat)
    requires |s.mem.blocks| == |s.mem.dirs| && b < |s.mem.dirs| && s.mem.dirs == s.dur.dirs
    requires FirstFreeEntry(s.mem.dirs[b].entries) < |s.mem.dirs[b].entries|
    ensures
      var (s', r) := AllocInBlock(g, s, env, b);
      (r.Ok? ==> s'.mem == s'.dur) && (r.Err? ==> IoError(r.error))
  {
    hide AllocInBlock, AllocRaws, Commit, CommitDir, NewEntry, Epp, Rewritten, FirstFreeEntry, Landed;
    RawsKeepDirs(g, s, env, 2);
    RawsError(g, s, env, 2);
    AllocInBlockSteps(g, s, env, b);
    FreeEntryUnused(s.mem, b);
    var (s1, ids, r) := AllocRaws(g, s, env, 2);
    if r.Ok? && s1.mapped {
      CommitFrame(g, s1);
      var s2 := Commit(g, s1).0;
      var slot := FirstFreeEntry(s.mem.dirs[b].entries);
      var e := NewEntry(g, s2.disk, ids[0], ids[1]);
      LandedRewritten(s2, s2.mem, b, slot, e);
      CommitDirMemory(g, s2.(mem := Rewritten(s2.mem, b, slot, e)), b);
    }
  }

  lemma NewBlockMirrors(g: Geometry, s: Sys, env: Env)
    requires |s.mem.blocks| == |s.mem.dirs| && s.mem.dirs == s.dur.dirs
    ensures
      var (s', r) := AllocNewBlock(g, s, env);
      (r.Ok? ==> s'.mem == s'.dur) && (r.Err? ==> IoError(r.error))
  {
    hide AllocNewBlock, AllocRaws, Commit, CommitDir, NewEntry, Epp, AppendBlock, Landed;
    RawsKeepDirs(g, s, env, 4);
    RawsError(g, s, env, 4);
    AllocNewBlockSteps(g, s, env);
    var (s1, ids, r) := AllocRaws(g, s, env, 4);
    if r.Ok? && s1.mapped {
      CommitFrame(g, s1);
      var s2 := Commit(g, s1).0;
      var e := NewEntry(g, s2.disk, ids[2], ids[3]);
      AppendFrame(g, s2.mem, ids[0], ids[1], e);
      LandedAppended(g, s2, s2.mem, ids[0], ids[1], e);
      CommitDirMemory(g, s2.(mem := AppendBlock(g, s2.mem, ids[0], ids[1], e)), |s.mem.blocks|);
    }
  }

  lemma AllocProtectedMirrors(g: Geometry, s: Sys, env: Env)
    requires s.mem == s.dur && |s.mem.blocks| == |s.mem.dirs|
    ensures
      var (s', r) := AllocProtected(g, s, env);
      r.Ok? || !IoError(r.error) ==> s'.mem == s'.dur
  {
    hide AllocProtected, AllocInBlock, AllocNewBlock, FirstFreeEntry;
    AllocProtectedCases(g, s, env);
    var b := FirstOpenBlock(s.mem.dirs);
    if b < |s.mem.dirs| {
      InBlockMirrors(g, s, env, b);
    } else if |s.mem.blocks| < MaxDirBlocks(g.pageSize) {
      NewBlockMirrors(g, s, env);
    }
  }

  lemma FreeProtectedMirrors(g: Geometry, s: Sys, id: nat)
    requires s.mem == s.dur && |s.mem.blocks| == |s.mem.dirs|
    ensures
      var (s', r) := FreeProtected(g, s, id);
      s'.mem == s'.dur || r == Err(Unavailable)
  {
    hide FreeProtected, Commit, CommitDir, Unmark, Rewritten, Landed, BlockOf, SlotOf;
    if InUse(g, s.mem, id) {
      InUseHasEntry(g, s.mem, id);
      var b, slot := BlockOf(g, id), SlotOf(g, id);
      var e := s.mem.dirs[b].entries[slot];
      var m := Rewritten(s.mem, b, slot, e.(inUse := false));
      FreeProtectedSteps(g, s, id);
      if s.mapped {
        LandedRewritten(s, s.mem, b, slot, e.(inUse := false));
        CommitDirMemory(g, s.(mem := m), b);
        var s1 := CommitDir(g, s.(mem := m), b).0;
        CommitFrame(g, WithMeta(s1, Unmark(Unmark(s1.mem.meta, e.pageA), e.pageB)));
      }
    } else {
      FreeNotInUse(g, s, id);
    }
  }

  lemma WriteProtectedMirrors(g: Geometry, s: Sys, id: nat, page: Page)
    requires s.mem == s.dur && |s.mem.blocks| == |s.mem.dirs|
    ensures WriteProtected(g, s, id, page).0.mem == WriteProtected(g, s, id, page).0.dur
  {
    hide WriteProtected, StageWrite, CommitWrite, CommitDir, Flush, Flipped, Rewritten, Landed, BlockOf, SlotOf, InUse,
         InactivePhys, MappedPage;
    WriteProtectedCases(g, s, id, page);
    StageFrame(g, s, id, page);
    if InUse(g, s.mem, id) && s.mapped {
      InUseHasEntry(g, s.mem, id);
      var s0 := StageWrite(g, s, id, page).0;
      CommitWriteSteps(g, s0, id);
      var b, slot := BlockOf(g, id), SlotOf(g, id);
      var e := s.mem.dirs[b].entries[slot];
      var s1 := Step(s0, Flush(s0.disk, InactivePhys(e)));
      var e' := Flipped(e, g.crc(MappedPage(s1.disk, InactivePhys(e))));
      LandedRewritten(s1, s1.mem, b, slot, e');
      CommitDirMemory(g, s1.(mem := Rewritten(s1.mem, b, slot, e')), b);
    }
  }

  lemma CallMirrors(g: Geometry, s: Sys, op: Op)
    requires s.mem == s.dur && |s.mem.blocks| == |s.mem.dirs|
    ensures
      var (s', r) := Do(g, s, op);
      !IoFailed(r) ==> s'.mem == s'.dur
  {
    hide AllocRaw, AllocRaws, AllocProtected, FreeProtected, WriteProtected, Commit, UnmarkAll, Unmark, Epp, Sort;
    match op
    case OpAlloc(env) =>
      RawError(g, s, env);
      RawKeepsDirs(g, s, env);
      CommitFrame(g, AllocRaw(g, s, env).0);
    case OpAllocBulk(env, count) =>
      RawsError(g, s, env, count);
      RawsKeepDirs(g, s, env, count);
      CommitFrame(g, AllocRaws(g, s, env, count).0);
    case OpFree(id) => CommitFrame(g, WithMeta(s, Unmark(s.mem.meta, id)));
    case OpFreeBulk(ids) => CommitFrame(g, WithMeta(s, UnmarkAll(s.mem.meta, Sort(ids, IdLeq))));
    case OpAllocProtected(env) => AllocProtectedMirrors(g, s, env);
    case OpFreeProtected(id) => FreeProtectedMirrors(g, s, id);
    case OpWriteProtected(id, page) => WriteProtectedMirrors(g, s, id, page);
    case _ =>
  }

  lemma EventMirrors(g: Geometry, s: Sys, e: Event, s': Sys)
    requires Next(g, s, e, s') && s.mem == s.dur
    requires e.Call? ==> !IoFailed(e.reply)
    ensures s'.mem == s'.dur
  {
    hide Do, Open, CrashImage, Capacity, OwnPages, EntryOf;
    if e.Call? {
      CallMirrors(g, Begin(s), e.op);
    }
  }

  /** No call of the run reported an I/O failure or a missing mapping. */
  predicate NoIoErrors(es: seq<Event>) {
    forall i :: 0 <= i < |es| && es[i].Call? ==> !IoFailed(es[i].reply)
  }

  lemma {:induction false} MirrorsThroughout(g: Geometry, ss: seq<Sys>, es: seq<Event>)
    requires IsRun(g, ss, es) && NoIoErrors(es)
    ensures ss[|es|].mem == ss[|es|].dur
    decreases |es|
  {
    hide Next, Created, IoFailed;
    var n := |es|;
    CreatedMemory(g);
    if n > 0 {
      MirrorsThroughout(g, ss[..n], es[..n - 1]);
      assert ss[n - 1] == ss[..n][n - 1];
      EventMirrors(g, ss[n - 1], es[n - 1], ss[n]);
    }
  }

  /** Memory and disk agree: at the end of every run without I/O errors, crashes and reopenings
      included, `open` applied to the durable file rebuilds exactly the pager's memory. */
  lemma MemoryMatchesDisk(g: Geometry, ss: seq<Sys>, es: seq<Event>)
    requires IsRun(g, ss, es) && NoIoErrors(es)
    ensures
      var s := ss[|es|];
      s.mem == s.dur && Open(g, s.disk.durable) == Ok(s.mem)
  {
    hide Shows, Open, IsRun, NoIoErrors, CrashImage, Sized;
    RunLength(g, ss, es);
    MirrorsThroughout(g, ss, es);
    DisksAreWhole(g, ss, es, |es|);
  }

  // ── Double buffering keeps history ─────────────────────────────────────────

  /** The two files differ in page i at most. */
  ghost predicate DiffersAt(file: seq<Page>, file': seq<Page>, i: nat) {
    |file| == |file'| && forall j: nat :: j < |file| && j != i ==> file[j] == file'[j]
  }

  /** The page where m's metadata should be fails one of the two checks `open` makes: its own
      checksum, and the one the superblock gives for it. */
  predicate Rejected(g: Geometry, m: Mem, page: Page) {
    ParseMeta(g, page).None? || g.crc(page) != g.crc(MetaBytes(g, m.meta))
  }

  /** A file that holds state m, with something in the other metadata page: damage to that
      page changes nothing; damage for which the active one is rejected uncovers it. */
  lemma DamagedFile(g: Geometry, m: Mem, prev: Meta, file: seq<Page>, file': seq<Page>)
    requires Consistent(g, m) && Encodes(g, m, file) && MetaFits(g, prev)
    requires |file'| == |file| && |file[m.active.Other().PageId()]| == g.pageSize
    ensures DiffersAt(file, file', m.active.Other().PageId()) ==> Open(g, file') == Ok(m)
    ensures
      (DiffersAt(file, file', m.active.PageId())
       && file[m.active.Other().PageId()] == MetaBytes(g, prev)
       && Rejected(g, m, file'[m.active.PageId()])) ==>
      Open(g, file') == Ok(Mem(prev, m.active.Other(), m.blocks, m.dirs))
  {
    hide Consistent, MetaBytes, DirBytes, ParseMeta, ParseIndex, ParseSuper, ValidMagic, LoadDirs, Page0Bytes, MetaFits;
    ConsistentFits(g, m);
    ActiveAboveReserved(g, m);
    if DiffersAt(file, file', m.active.Other().PageId()) {
      DirsElsewhere(g, file, file', m, m.active.Other().PageId());
      OpenRebuilds(g, m, file');
    }
    if DiffersAt(file, file', m.active.PageId()) {
      DirsElsewhere(g, file, file', m, m.active.PageId());
      DirsLoad(g, file', m.blocks, m.dirs);
      MetaRoundTrip(g, prev);
      SuperReads(g, m.active, g.crc(MetaBytes(g, m.meta)), m.blocks);
    }
  }

  lemma DirsElsewhere(g: Geometry, file: seq<Page>, file': seq<Page>, m: Mem, i: nat)
    requires DirsStored(g, file, m.blocks, m.dirs) && DiffersAt(file, file', i) && i < FIRST_DATA_PAGE
    requires forall b :: 0 <= b < |m.blocks| ==> m.blocks[b].Active() >= FIRST_DATA_PAGE
    ensures DirsStored(g, file', m.blocks, m.dirs)
  {
  }

  lemma ActiveAboveReserved(g: Geometry, m: Mem)
    requires Consistent(g, m)
    ensures forall b :: 0 <= b < |m.blocks| ==> m.blocks[b].Active() >= FIRST_DATA_PAGE
  {
    BlocksAboveReserved(m);
  }

  /** After every completed commit the alternate metadata page holds exactly the state that
      was active before: losing the active page recovers precisely that predecessor, and
      damage to the alternate changes nothing. */
  lemma CommitKeepsPredecessor(g: Geometry, s: Sys, a: Abs, file: seq<Page>)
    requires Ready(g, s, a) && s.mem.meta.generation + 1 < U64_LIMIT
    requires |file| == |Commit(g, s).0.disk.durable|
    ensures
      var s' := Commit(g, s).0;
      && s'.disk.durable[s.dur.active.PageId()] == MetaBytes(g, s.dur.meta)
      && s'.dur.active == s.dur.active.Other() && s'.dur.meta == s'.mem.meta
      && (DiffersAt(s'.disk.durable, file, s.dur.active.PageId()) ==> Open(g, file) == Ok(s'.dur))
      && (DiffersAt(s'.disk.durable, file, s'.dur.active.PageId()) ==>
            Rejected(g, s'.dur, file[s'.dur.active.PageId()]) ==> Open(g, file) == Ok(s.dur))
  {
    hide Steady, Open, DiffersAt, Rejected, Commit, MetaBytes, Consistent, MetaFits;
    CommitAdvances(g, s, a);
    var s' := Commit(g, s).0;
    PredecessorKept(g, s, a);
    SteadyEncodes(g, s', a);
    SteadyEncodes(g, s, a);
    FitsMeta(g, s.dur);
    MetaRoundTrip(g, s.dur.meta);
    DamagedFile(g, s'.dur, s.dur.meta, s'.disk.durable, file);
  }

  lemma FitsMeta(g: Geometry, m: Mem)
    requires Consistent(g, m)
    ensures MetaFits(g, m.meta)
  {
  }

  lemma CommitAdvances(g: Geometry, s: Sys, a: Abs)
    requires Ready(g, s, a) && s.mem.meta.generation + 1 < U64_LIMIT
    ensures
      var s' := Commit(g, s).0;
      && Steady(g, s', a) && s'.dur.meta == s'.mem.meta
      && s'.dur.active == s.dur.active.Other() && s'.dur.blocks == s.dur.blocks && s'.dur.dirs == s.dur.dirs
  {
    hide Durable, Consistent, Commit, DirsLag;
    var t := s.(trace := []);
    EmptyTraceOk(g, a);
    TraceAside(g, s, a);
    CommitSteady(g, t, a, a, a);
    CommitFrame(g, t);
    CommitIgnoresTrace(g, s, t);
    TraceAside(g, Commit(g, t).0, a);
  }

  lemma TraceAside(g: Geometry, s: Sys, a: Abs)
    requires Steady(g, s, a)
    ensures forall trace :: Steady(g, s.(trace := trace), a)
  {
    hide Survives, Sound, Sized, Consistent, DirsLag;
  }

  lemma CommitIgnoresTrace(g: Geometry, s: Sys, t: Sys)
    requires t == s.(trace := t.trace)
    ensures Commit(g, s).0 == Commit(g, t).0.(trace := Commit(g, s).0.trace)
  {
    hide Store, Flush;
  }

  lemma SteadyEncodes(g: Geometry, s: Sys, a: Abs)
    requires Steady(g, s, a)
    ensures Consistent(g, s.dur) && Encodes(g, s.dur, s.disk.durable)
  {
    hide Consistent, Holds, DirsLag;
    assert s.disk.durable[0 := s.disk.durable[0]] == s.disk.durable;
  }

  lemma PredecessorKept(g: Geometry, s: Sys, a: Abs)
    requires Ready(g, s, a)
    ensures Commit(g, s).0.disk.durable[s.dur.active.PageId()] == MetaBytes(g, s.dur.meta)
    ensures |Commit(g, s).0.disk.durable| >= 4
  {
    hide Consistent, Holds, MetaBytes, Page0Bytes, DirBytes, DirsLag, Sized;
  }

  // ── A crash loses no allocation ────────────────────────────────────────────

  ghost predicate TraceKeeps(trace: seq<Point>, base: set<nat>) {
    forall i :: 0 <= i < |trace| ==>
      base <= AllocatedSet(trace[i].cur.meta) && base <= AllocatedSet(trace[i].next.meta)
  }

  lemma PublishKeeps(s: Sys, i: nat, page: Page, page0: Page, next: Mem, base: set<nat>)
    requires TraceKeeps(s.trace, base)
    requires base <= AllocatedSet(s.dur.meta) && base <= AllocatedSet(next.meta)
    ensures TraceKeeps(Publish(s, i, page, page0, next).trace, base)
  {
    hide AllocatedSet, Store, Flush;
  }

  lemma CommitKeeps(g: Geometry, s: Sys, base: set<nat>)
    requires TraceKeeps(s.trace, base) && base <= AllocatedSet(s.dur.meta) && base <= AllocatedSet(s.mem.meta)
    ensures
      var s' := Commit(g, s).0;
      && TraceKeeps(s'.trace, base)
      && base <= AllocatedSet(s'.dur.meta) && base <= AllocatedSet(s'.mem.meta)
  {
    hide AllocatedSet, Publish, TraceKeeps, MetaBytes, Page0Bytes;
    GenerationOnly(s.mem.meta);
    var next := Mem(NextGeneration(s.mem.meta), s.mem.active.Other(), s.mem.blocks, s.dur.dirs);
    var buf := MetaBytes(g, next.meta);
    PublishKeeps(s, next.active.PageId(), buf, Page0Bytes(g, Super(g, next.active, g.crc(buf)), s.mem.blocks), next, base);
    PublishLength(s, next.active.PageId(), buf, Page0Bytes(g, Super(g, next.active, g.crc(buf)), s.mem.blocks), next);
  }

  lemma CommitDirKeeps(g: Geometry, s: Sys, b: nat, base: set<nat>)
    requires b < |s.mem.blocks| == |s.mem.dirs|
    requires TraceKeeps(s.trace, base) && base <= AllocatedSet(s.dur.meta)
    ensures
      var s' := CommitDir(g, s, b).0;
      && TraceKeeps(s'.trace, base) && base <= AllocatedSet(s'.dur.meta) && s'.mem.meta == s.mem.meta
  {
    hide AllocatedSet, TraceKeeps, DirBytes, Page0Bytes, Store, Flush, Publish;
    if s.mapped {
      var r := s.mem.blocks[b];
      var buf := DirBytes(g, s.mem.dirs[b]);
      var stored := Flush(Store(s.disk, r.Inactive(), buf), r.Inactive());
      var checksum := g.crc(MappedPage(stored, s.mem.active.PageId()));
      var page0 := Page0Bytes(g, Super(g, s.mem.active, checksum), FlipBlock(s.mem.blocks, b));
      PublishKeeps(s, r.Inactive(), buf, page0, Published(s, b), base);
      PublishLength(s, r.Inactive(), buf, page0, Published(s, b));
    }
  }

  lemma StepKeeps(s: Sys, d: Disk, base: set<nat>)
    requires TraceKeeps(s.trace, base) && base <= AllocatedSet(s.dur.meta)
    ensures TraceKeeps(Step(s, d).trace, base)
  {
    hide AllocatedSet;
  }

  lemma RawKeeps(g: Geometry, s: Sys, env: Env, base: set<nat>)
    requires TraceKeeps(s.trace, base) && base <= AllocatedSet(s.dur.meta)
    ensures TraceKeeps(AllocRaw(g, s, env).0.trace, base)
  {
    hide FreeSlot, Mark, GrowTo, SetLen, TraceKeeps, AllocatedSet;
    var s1 := Step(s, SetLen(g, s.disk, s.mem.meta.total * 2));
    StepKeeps(s, SetLen(g, s.disk, s.mem.meta.total * 2), base);
    StepKeeps(s1, SetLen(g, s1.disk, s.mem.meta.total), base);
  }

  lemma {:induction false} RawsKeep(g: Geometry, s: Sys, env: Env, n: nat, base: set<nat>)
    requires TraceKeeps(s.trace, base) && base <= AllocatedSet(s.dur.meta)
    ensures TraceKeeps(AllocRaws(g, s, env, n).0.trace, base)
    decreases n
  {
    hide AllocRaw, TraceKeeps, AllocatedSet;
    if n > 0 {
      RawKeeps(g, s, env, base);
      RawKeepsDirs(g, s, env);
      RawsKeep(g, AllocRaw(g, s, env).0, env, n - 1, base);
    }
  }

  lemma BeginKeeps(s: Sys, base: set<nat>)
    requires base <= AllocatedSet(s.dur.meta)
    ensures TraceKeeps(Begin(s).trace, base)
  {
  }

  /** The pages a call is asked to give back. */
  ghost function Released(g: Geometry, s: Sys, op: Op): set<nat> {
    match op
    case OpFree(id) => {id}
    case OpFreeBulk(ids) => ToSet(ids)
    case OpFreeProtected(id) => if InUse(g, s.mem, id) then {EntryOf(g, s.mem, id).pageA, EntryOf(g, s.mem, id).pageB} else {}
    case _ => {}
  }

  lemma UnmarkKeeps(m: Meta, id: nat)
    ensures AllocatedSet(m) - {id} <= AllocatedSet(Unmark(m, id))
  {
    forall x | x in AllocatedSet(m) - {id}
      ensures x in AllocatedSet(Unmark(m, id))
    {
      if Allocated(m, id) {
        ClearBitmapAt(m.bitmap, id, x);
      }
    }
  }

  lemma {:induction false} UnmarkAllKeeps(m: Meta, ids: seq<nat>)
    ensures AllocatedSet(m) - ToSet(ids) <= AllocatedSet(UnmarkAll(m, ids))
    decreases |ids|
  {
    hide AllocatedSet, Unmark;
    if ids != [] {
      UnmarkKeeps(m, ids[0]);
      UnmarkAllKeeps(Unmark(m, ids[0]), ids[1..]);
      assert ids[0] in ids;
    }
  }

  /** The pages `base` are allocated in memory and on disk, and in every state the call may have
      led a crash to so far. */
  ghost predicate Kept(s: Sys, base: set<nat>) {
    && TraceKeeps(s.trace, base)
    && base <= AllocatedSet(s.dur.meta) && base <= AllocatedSet(s.mem.meta)
  }

  lemma AllocsKeep(g: Geometry, s: Sys, env: Env, n: nat, a: Abs, base: set<nat>)
    requires Steady(g, s, a) && Capacity(g, s.mem.meta, n) && TraceOk(g, s.trace, a, a) && Kept(s, base)
    ensures Kept(AllocRaws(g, s, env, n).0, base)
  {
    hide AllocRaws, TraceKeeps, Steady, TraceOk, Capacity, AllocatedSet;
    RawsKeep(g, s, env, n, base);
    RawsKeepDirs(g, s, env, n);
    RawsSafe(g, s, env, n, a, a, a);
  }

  lemma AllocProtectedKeeps(g: Geometry, s: Sys, env: Env, a: Abs, base: set<nat>)
    requires Steady(g, s, a) && Capacity(g, s.mem.meta, Needed(g, s.mem)) && TraceOk(g, s.trace, a, a)
    requires |s.mem.blocks| == |s.mem.dirs| && Kept(s, base)
    ensures TraceKeeps(AllocProtected(g, s, env).0.trace, base)
  {
    hide AllocRaws, TraceKeeps, Steady, TraceOk, Capacity, AllocatedSet, AllocProtected, AllocInBlock, AllocNewBlock,
         FirstFreeEntry;
    AllocProtectedCases(g, s, env);
    var b := FirstOpenBlock(s.mem.dirs);
    if b < |s.mem.dirs| {
      AllocsKeep(g, s, env, 2, a, base);
      InBlockKeeps(g, s, env, b, base);
    } else if |s.mem.blocks| < MaxDirBlocks(g.pageSize) {
      AllocsKeep(g, s, env, 4, a, base);
      NewBlockKeeps(g, s, env, base);
    }
  }

  lemma InBlockKeeps(g: Geometry, s: Sys, env: Env, b: nat, base: set<nat>)
    requires |s.mem.blocks| == |s.mem.dirs| && b < |s.mem.dirs|
    requires FirstFreeEntry(s.mem.dirs[b].entries) < |s.mem.dirs[b].entries|
    requires Kept(AllocRaws(g, s, env, 2).0, base)
    ensures TraceKeeps(AllocInBlock(g, s, env, b).0.trace, base)
  {
    hide AllocInBlock, AllocRaws, TraceKeeps, AllocatedSet, Commit, CommitDir, Rewritten, NewEntry, FirstFreeEntry;
    AllocInBlockSteps(g, s, env, b);
    FreeEntryUnused(s.mem, b);
    var (s1, ids, r) := AllocRaws(g, s, env, 2);
    CommitKeeps(g, s1, base);
    if r.Ok? && s1.mapped {
      var s2 := Commit(g, s1).0;
      var e := NewEntry(g, s2.disk, ids[0], ids[1]);
      CommitDirKeeps(g, s2.(mem := Rewritten(s2.mem, b, FirstFreeEntry(s.mem.dirs[b].entries), e)), b, base);
    }
  }

  lemma NewBlockKeeps(g: Geometry, s: Sys, env: Env, base: set<nat>)
    requires |s.mem.blocks| == |s.mem.dirs|
    requires Kept(AllocRaws(g, s, env, 4).0, base)
    ensures TraceKeeps(AllocNewBlock(g, s, env).0.trace, base)
  {
    hide AllocNewBlock, AllocRaws, TraceKeeps, AllocatedSet, Commit, CommitDir, NewEntry, AppendBlock;
    AllocNewBlockSteps(g, s, env);
    var (s1, ids, r) := AllocRaws(g, s, env, 4);
    CommitKeeps(g, s1, base);
    if r.Ok? && s1.mapped {
      var s2 := Commit(g, s1).0;
      var e := NewEntry(g, s2.disk, ids[2], ids[3]);
      CommitDirKeeps(g, s2.(mem := AppendBlock(g, s2.mem, ids[0], ids[1], e)), |s.mem.blocks|, base);
    }
  }

  lemma FreeProtectedKeeps(g: Geometry, s: Sys, id: nat, base: set<nat>)
    requires |s.mem.blocks| == |s.mem.dirs| && Kept(s, base)
    requires InUse(g, s.mem, id) ==> EntryOf(g, s.mem, id).pageA !in base && EntryOf(g, s.mem, id).pageB !in base
    ensures TraceKeeps(FreeProtected(g, s, id).0.trace, base)
  {
    hide FreeProtected, Commit, CommitDir, Unmark, Rewritten, TraceKeeps, AllocatedSet, BlockOf, SlotOf, EntryOf;
    if InUse(g, s.mem, id) {
      InUseHasEntry(g, s.mem, id);
      var b, slot := BlockOf(g, id), SlotOf(g, id);
      var e := s.mem.dirs[b].entries[slot];
      var m := Rewritten(s.mem, b, slot, e.(inUse := false));
      FreeProtectedSteps(g, s, id);
      if s.mapped {
        CommitDirKeeps(g, s.(mem := m), b, base);
        var s1 := CommitDir(g, s.(mem := m), b).0;
        UnmarkKeeps(s1.mem.meta, e.pageA);
        UnmarkKeeps(Unmark(s1.mem.meta, e.pageA), e.pageB);
        CommitKeeps(g, WithMeta(s1, Unmark(Unmark(s1.mem.meta, e.pageA), e.pageB)), base);
      }
    } else {
      FreeNotInUse(g, s, id);
    }
  }

  lemma WriteProtectedKeeps(g: Geometry, s: Sys, id: nat, page: Page, base: set<nat>)
    requires |s.mem.blocks| == |s.mem.dirs| && Kept(s, base)
    ensures TraceKeeps(WriteProtected(g, s, id, page).0.trace, base)
  {
    hide WriteProtected, StageWrite, CommitWrite, CommitDir, Store, Flush, Flipped, Rewritten, TraceKeeps, AllocatedSet,
         BlockOf, SlotOf, InUse, InactivePhys, MappedPage;
    WriteProtectedCases(g, s, id, page);
    if InUse(g, s.mem, id) && s.mapped {
      InUseHasEntry(g, s.mem, id);
      var b, slot := BlockOf(g, id), SlotOf(g, id);
      var e := s.mem.dirs[b].entries[slot];
      var s0 := StageWrite(g, s, id, page).0;
      StageKeeps(g, s, id, page, base);
      StageFrame(g, s, id, page);
      CommitWriteSteps(g, s0, id);
      var s1 := Step(s0, Flush(s0.disk, InactivePhys(e)));
      StepKeeps(s0, Flush(s0.disk, InactivePhys(e)), base);
      var e' := Flipped(e, g.crc(MappedPage(s1.disk, InactivePhys(e))));
      CommitDirKeeps(g, s1.(mem := Rewritten(s1.mem, b, slot, e')), b, base);
    }
  }

  lemma StageKeeps(g: Geometry, s: Sys, id: nat, page: Page, base: set<nat>)
    requires Kept(s, base)
    ensures TraceKeeps(StageWrite(g, s, id, page).0.trace, base)
  {
    hide Store, TraceKeeps, AllocatedSet, EntryOf, InactivePhys;
    StepKeeps(s, Store(s.disk, InactivePhys(EntryOf(g, s.mem, id)), page), base);
  }

  lemma FreeBulkKeeps(g: Geometry, s: Sys, ids: seq<nat>, base: set<nat>)
    requires Kept(s, base) && base !! ToSet(ids)
    ensures TraceKeeps(FreeBulk(g, s, ids).0.trace, base)
  {
    hide Commit, UnmarkAll, Sort, TraceKeeps, AllocatedSet, AdjacentEqual, CheckIds;
    var sorted := Sort(ids, IdLeq);
    SortFreeable(s.mem.meta, ids);
    UnmarkAllKeeps(s.mem.meta, sorted);
    CommitKeeps(g, WithMeta(s, UnmarkAll(s.mem.meta, sorted)), base);
  }

  lemma FreeKeeps(g: Geometry, s: Sys, id: nat, base: set<nat>)
    requires Kept(s, base) && id !in base
    ensures TraceKeeps(Free(g, s, id).0.trace, base)
  {
    hide Commit, Unmark, TraceKeeps, AllocatedSet, Allocated;
    UnmarkKeeps(s.mem.meta, id);
    CommitKeeps(g, WithMeta(s, Unmark(s.mem.meta, id)), base);
  }

  lemma AllocKeeps(g: Geometry, s: Sys, env: Env, a: Abs, base: set<nat>)
    requires Steady(g, s, a) && Capacity(g, s.mem.meta, 1) && TraceOk(g, s.trace, a, a) && Kept(s, base)
    ensures TraceKeeps(Alloc(g, s, env).0.trace, base)
  {
    hide AllocRaw, Commit, TraceKeeps, Steady, TraceOk, Capacity, AllocatedSet;
    RawKeeps(g, s, env, base);
    RawSafe(g, s, env, 1, a, a, a);
    RawKeepsDirs(g, s, env);
    if AllocRaw(g, s, env).1.Ok? {
      CommitKeeps(g, AllocRaw(g, s, env).0, base);
    }
  }

  lemma AllocBulkKeeps(g: Geometry, s: Sys, env: Env, n: nat, a: Abs, base: set<nat>)
    requires Steady(g, s, a) && Capacity(g, s.mem.meta, n) && TraceOk(g, s.trace, a, a) && Kept(s, base)
    ensures TraceKeeps(AllocBulk(g, s, env, n).0.trace, base)
  {
    hide AllocRaws, Commit, TraceKeeps, Steady, TraceOk, Capacity, AllocatedSet, UnmarkAll;
    AllocsKeep(g, s, env, n, a, base);
    CommitKeeps(g, AllocRaws(g, s, env, n).0, base);
  }

  /** The pages allocated in memory and on disk that the call is not asked to give back. */
  ghost function Untouched(g: Geometry, s: Sys, op: Op): set<nat> {
    AllocatedSet(s.mem.meta) * AllocatedSet(s.dur.meta) - Released(g, s, op)
  }

  lemma CallKeeps(g: Geometry, s: Sys, op: Op, v: View)
    requires Shows(g, s, v) && Allowed(g, s, op)
    ensures TraceKeeps(Do(g, Begin(s), op).0.trace, Untouched(g, s, op))
  {
    hide Alloc, AllocBulk, Free, WriteRegular, AllocProtected, FreeProtected, WriteProtected, StageWrite, FreeBulk,
         Shows, Steady, TraceOk, TraceKeeps, Capacity, OwnPages, AllocatedSet, EntryOf, Needed;
    var t := Begin(s);
    var base := Untouched(g, s, op);
    BeginKeeps(s, base);
    BeginShows(g, s, v);
    ShowsReady(g, t, v);
    match op
    case OpAlloc(env) => AllocKeeps(g, t, env, v.pages, base);
    case OpAllocBulk(env, count) => AllocBulkKeeps(g, t, env, count, v.pages, base);
    case OpFree(id) => FreeKeeps(g, t, id, base);
    case OpFreeBulk(ids) => FreeBulkKeeps(g, t, ids, base);
    case OpWriteRegular(id, page) => WriteRegularKeeps(t, id, page, base);
    case OpAllocProtected(env) => AllocProtectedKeeps(g, t, env, v.pages, base);
    case OpFreeProtected(id) => FreeProtectedKeeps(g, t, id, base);
    case OpStage(id, page) => StageKeeps(g, t, id, page, base);
    case OpWriteProtected(id, page) => WriteProtectedKeeps(g, t, id, page, base);
  }

  lemma WriteRegularKeeps(s: Sys, id: nat, page: Page, base: set<nat>)
    requires Kept(s, base)
    ensures TraceKeeps(WriteRegular(s, id, page).0.trace, base)
  {
    hide Store, TraceKeeps, AllocatedSet;
    StepKeeps(s, Store(s.disk, id, page), base);
  }

  lemma PointKeeps(trace: seq<Point>, at: nat, base: set<nat>)
    requires TraceKeeps(trace, base) && at < |trace|
    ensures base <= AllocatedSet(trace[at].cur.meta) && base <= AllocatedSet(trace[at].next.meta)
  {
  }

  /** A crash during a call never frees a page the call was not asked to release: every other
      page that was allocated in memory and on disk is allocated in the state `open` recovers,
      whatever the crash left of the file, although pages the call took may stay allocated for
      nobody. */
  lemma CrashLosesNothing(g: Geometry, s: Sys, op: Op, v: View, at: nat, file: seq<Page>)
    requires Shows(g, s, v) && Allowed(g, s, op)
    requires at < |Do(g, Begin(s), op).0.trace|
    requires CrashImage(g, Do(g, Begin(s), op).0.trace[at].disk, file)
    ensures Open(g, file).Ok?
    ensures
      AllocatedSet(s.mem.meta) * AllocatedSet(s.dur.meta) - Released(g, s, op)
      <= AllocatedSet(Open(g, file).value.meta)
  {
    hide Shows, Capacity, OwnPages, EntryOf, Do, CrashImage, AbsCrash, Open, TraceKeeps, AllocatedSet, Released;
    CallKeeps(g, s, op, v);
    PointKeeps(Do(g, Begin(s), op).0.trace, at, Untouched(g, s, op));
    var v' := CrashDuringCall(g, s, op, v, at, file);
  }

  // ── The file covers its pages ──────────────────────────────────────────────

  /** The file is long enough for every page the durable state counts and for every page memory
      counts; so it is in every image a crash can leave. */
  lemma FileCovers(g: Geometry, s: Sys, a: Abs, file: seq<Page>)
    requires Steady(g, s, a)
    ensures s.dur.meta.total <= |s.disk.durable| && s.mem.meta.total <= |s.disk.mapped|
    ensures CrashImage(g, s.disk, file) ==> Open(g, file).Ok? && Open(g, file).value.meta.total <= |file|
  {
    hide Survives, Consistent, Open, DirsLag, Sized;
    DurableTotal(g, s, a);
    if CrashImage(g, s.disk, file) {
      CrashBetweenCalls(g, s, a, file);
    }
  }

  /** The same for every disk a call passes through, growth included. */
  lemma FileCoversDuringCall(g: Geometry, s: Sys, op: Op, v: View, at: nat, file: seq<Page>)
    requires Shows(g, s, v) && Allowed(g, s, op)
    requires at < |Do(g, Begin(s), op).0.trace|
    requires CrashImage(g, Do(g, Begin(s), op).0.trace[at].disk, file)
    ensures Open(g, file).Ok? && Open(g, file).value.meta.total <= |file|
  {
    hide Shows, Do, CrashImage, Capacity, OwnPages, EntryOf, Open, AbsCrash;
    var v' := CrashDuringCall(g, s, op, v, at, file);
    var t := Boot(Open(g, file).value, file);
    ShowsReady(g, t, v');
    BootCovers(g, Open(g, file).value, file, v'.pages);
  }

  lemma BootCovers(g: Geometry, m: Mem, file: seq<Page>, a: Abs)
    requires Steady(g, Boot(m, file), a)
    ensures m.meta.total <= |file|
  {
    hide Survives, Consistent, DirsLag, Sound, Sized;
  }
}
