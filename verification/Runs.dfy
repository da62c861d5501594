/** Whole runs: any sequence of calls, crashes in the middle of calls and reopenings, starting
    from a newly created file, with calls on a pager that has lost its mapping among them. */
module Runs {
  import opened Bytes
  import opened Results
  import opened Metadata
  import opened Layout
  import opened Disks
  import opened Recovery
  import opened PagerSpec
  import opened Ownership
  import opened Safety
  import opened DirSafety
  import opened RawAllocation
  import opened DirChanges
  import opened Entries
  import opened Operations
  import opened Bulk

  datatype Op =
    | OpAlloc(env: Env)
    | OpAllocBulk(env: Env, count: nat)
    | OpFree(id: nat)
    | OpFreeBulk(ids: seq<nat>)
    | OpWriteRegular(id: nat, page: Page)
    | OpAllocProtected(env: Env)
    | OpFreeProtected(id: nat)
    | OpStage(id: nat, page: Page)
    | OpWriteProtected(id: nat, page: Page)

  datatype Reply = Unit(u: Result<()>) | Id(r: Result<nat>) | Ids(rs: Result<seq<nat>>) {
    predicate Succeeded() {
      match this
      case Unit(u) => u.Ok?
      case Id(r) => r.Ok?
      case Ids(rs) => rs.Ok?
    }
  }

  /** A call begins: the first disk a crash could catch is the current one. */
  function Begin(s: Sys): Sys {
    s.(trace := [Point(s.disk, s.dur, s.dur)])
  }

  function Do(g: Geometry, s: Sys, op: Op): (Sys, Reply)
    requires |s.mem.blocks| == |s.mem.dirs|
  {
    match op
    case OpAlloc(env) => var (s', r) := Alloc(g, s, env); (s', Id(r))
    case OpAllocBulk(env, count) => var (s', r) := AllocBulk(g, s, env, count); (s', Ids(r))
    case OpFree(id) => var (s', r) := Free(g, s, id); (s', Unit(r))
    case OpFreeBulk(ids) => var (s', r) := FreeBulk(g, s, ids); (s', Unit(r))
    case OpWriteRegular(id, page) => var (s', r) := WriteRegular(s, id, page); (s', Unit(r))
    case OpAllocProtected(env) => var (s', r) := AllocProtected(g, s, env); (s', Id(r))
    case OpFreeProtected(id) => var (s', r) := FreeProtected(g, s, id); (s', Unit(r))
    case OpStage(id, page) => var (s', r) := StageWrite(g, s, id, page); (s', Unit(r))
    case OpWriteProtected(id, page) => var (s', r) := WriteProtected(g, s, id, page); (s', Unit(r))
  }

  /** How many pages the call may take from the allocator. */
  function Demand(g: Geometry, m: Mem, op: Op): nat {
    match op
    case OpAlloc(_) => 1
    case OpAllocBulk(_, count) => count
    case OpAllocProtected(_) => Needed(g, m)
    case _ => 0
  }

  /** Callers pass ids of their own regular pages, never of the pages behind the directory, in
      memory or on disk. */
  ghost predicate OwnPages(s: Sys, op: Op) {
    match op
    case OpFree(id) => id !in Referenced(s.dur)
    case OpFreeBulk(ids) => forall x :: x in ids ==> x !in Referenced(s.dur)
    case OpWriteRegular(id, _) => id !in Referenced(s.dur)
    case _ => true
  }

  /** What is written is one page, as the source's page type says. */
  predicate WholePage(g: Geometry, op: Op) {
    match op
    case OpWriteRegular(_, page) => |page| == g.pageSize
    case OpStage(_, page) => |page| == g.pageSize
    case OpWriteProtected(_, page) => |page| == g.pageSize
    case _ => true
  }

  /** When a call may be made, whether the file is mapped or not: the grown bitmap would still
      fit its page, 64-bit generations do not wrap, and the caller keeps to its own pages. */
  ghost predicate Allowed(g: Geometry, s: Sys, op: Op) {
    && |s.mem.blocks| == |s.mem.dirs|
    && Capacity(g, s.mem.meta, Demand(g, s.mem, op))
    && s.mem.meta.generation + 1 < U64_LIMIT
    && (op.OpWriteProtected? ==> EntryOf(g, s.mem, op.id).generation + 1 < U64_LIMIT)
    && WholePage(g, op) && OwnPages(s, op)
  }

  // ── The abstract store ─────────────────────────────────────────────────────

  /** What a user knows: the protected pages a reopening would find, those of them the pager
      shows, and whether the file is mapped. A page is found but not shown when it was freed
      while the file was not mapped. */
  datatype View = View(pages: Abs, shown: set<nat>, mapped: bool)

  ghost predicate Shows(g: Geometry, s: Sys, v: View) {
    && Steady(g, s, v.pages) && v.mapped == s.mapped
    && forall id: nat :: id in v.shown <==> InUse(g, s.mem, id)
  }

  /** After a reopening every page that is found is shown. */
  function Reopened(pages: Abs): View {
    View(pages, pages.Keys, true)
  }

  /** The smallest protected id not in use. */
  ghost predicate SmallestUnused(shown: set<nat>, id: nat) {
    id !in shown && forall j: nat :: j < id ==> j in shown
  }

  /** Apart from `ids`, the pages keep their contents; only pages that are not shown may be gone,
      because a free of theirs reached the file together with this commit. */
  ghost predicate Lands(v: View, ids: set<nat>, pages: Abs) {
    && (forall k :: k in pages && k !in ids ==> k in v.pages && pages[k] == v.pages[k])
    && forall k :: k in v.shown && k !in ids ==> k in pages
  }

  predicate Done(r: Reply) {
    r.Unit? && r.u.Ok?
  }

  predicate Failed(r: Reply) {
    r.Unit? && r.u.Err?
  }

  /** What a call does to the protected pages as a user sees them, given its reply. */
  ghost predicate AbsStep(v: View, op: Op, r: Reply, v': View) {
    match op
    case OpAlloc(_) => v' == v.(mapped := v'.mapped)
    case OpAllocBulk(_, _) => v' == v.(mapped := v'.mapped)
    case OpAllocProtected(_) =>
      (match r
       case Id(Ok(id)) =>
         && SmallestUnused(v.shown, id) && v'.shown == v.shown + {id} && v'.mapped
         && Lands(v, {id}, v'.pages) && id in v'.pages && v'.pages[id] == None
       case _ => r.Id? && v' == v.(mapped := v'.mapped))
    case OpFreeProtected(id) =>
      && v'.mapped == v.mapped && v'.shown == v.shown - {id}
      && (if id in v.shown && v.mapped then Done(r) && Lands(v, {id}, v'.pages) && id !in v'.pages
          else Failed(r) && v'.pages == v.pages && (r.u == Err(Unavailable) <==> id in v.shown))
    case OpWriteProtected(id, page) =>
      && v'.mapped == v.mapped && v'.shown == v.shown
      && (if id in v.shown && v.mapped then
            Done(r) && Lands(v, {id}, v'.pages) && id in v'.pages && v'.pages[id] == Some(page)
          else Failed(r) && v'.pages == v.pages)
    case _ => v' == v
  }

  lemma ShowsReady(g: Geometry, s: Sys, v: View)
    requires Shows(g, s, v)
    ensures Steady(g, s, v.pages) && (v.mapped ==> Ready(g, s, v.pages)) && |s.mem.blocks| == |s.mem.dirs|
    ensures v.shown <= v.pages.Keys
  {
    hide Steady, InUse;
    ShownInContents(g, s, v.pages, 0);
    forall id | id in v.shown
      ensures id in v.pages
    {
      ShownInContents(g, s, v.pages, id);
    }
    if v.mapped {
      SteadyReady(g, s, v.pages);
    }
  }

  /** As long as nothing was freed without a mapping, a commit keeps every other page. */
  lemma NothingPending(v: View, ids: set<nat>, pages: Abs)
    requires Lands(v, ids, pages) && v.shown == v.pages.Keys
    ensures pages - ids == v.pages - ids
  {
  }

  // ── alloc_protected returns the smallest unused id ─────────────────────────

  lemma AllEntriesUsed(g: Geometry, m: Mem, b: nat, id: nat)
    requires Consistent(g, m) && b <= FirstOpenBlock(m.dirs) && BlockOf(g, id) < b
    ensures InUse(g, m, id)
  {
    hide Exact, MetaFits, Owned, Doubled;
    SlotOfId(g, id);
    assert DirShape(g, m.dirs[BlockOf(g, id)]);
    var es := m.dirs[BlockOf(g, id)].entries;
    assert FirstFreeEntry(es) == |es|;
  }

  lemma IdsBefore(g: Geometry, b: nat, slot: nat, id: nat)
    requires slot < Epp(g) && id < IdAt(g, b, slot)
    ensures BlockOf(g, id) < b || (BlockOf(g, id) == b && SlotOf(g, id) < slot)
  {
    SlotOfId(g, id);
    var c := BlockOf(g, id);
    if c > b {
      NextMultiple(b, c, Epp(g));
    }
  }

  /** Under the bijection id = block * epp + slot, the first free slot of the first block
      with one is the smallest id not in use. */
  lemma FirstSlotIsSmallest(g: Geometry, m: Mem, slot: nat)
    requires Consistent(g, m) && slot < Epp(g)
    requires
      var b := FirstOpenBlock(m.dirs);
      if b < |m.dirs| then slot == FirstFreeEntry(m.dirs[b].entries) else slot == 0
    ensures
      var id := IdAt(g, FirstOpenBlock(m.dirs), slot);
      !InUse(g, m, id) && forall j: nat :: j < id ==> InUse(g, m, j)
  {
    hide Exact, MetaFits, Owned, Doubled, DirShape;
    var b := FirstOpenBlock(m.dirs);
    var id := IdAt(g, b, slot);
    IdOfSlot(g, b, slot);
    forall j: nat | j < id
      ensures InUse(g, m, j)
    {
      IdsBefore(g, b, slot, j);
      if BlockOf(g, j) < b {
        AllEntriesUsed(g, m, b, j);
      }
    }
  }

  lemma NewIdIsSmallest(g: Geometry, s: Sys, env: Env, v: View)
    requires Shows(g, s, v) && |s.mem.blocks| == |s.mem.dirs|
    requires AllocProtected(g, s, env).1.Ok?
    ensures SmallestUnused(v.shown, AllocProtected(g, s, env).1.value)
  {
    hide Steady, Consistent, AllocProtected, NextSlot, Epp, InUse, IdAt;
    SteadyMeta(g, s, v.pages);
    SlotInRange(g, s.mem);
    AllocProtectedEntries(g, s, env);
    SlotFound(s.mem);
    FirstSlotIsSmallest(g, s.mem, NextSlot(s.mem));
  }

  lemma SlotFound(m: Mem)
    ensures
      var b := FirstOpenBlock(m.dirs);
      NextSlot(m) == if b < |m.dirs| then FirstFreeEntry(m.dirs[b].entries) else 0
  {
  }

  lemma SlotInRange(g: Geometry, m: Mem)
    requires Consistent(g, m)
    ensures NextSlot(m) < Epp(g)
  {
    hide Exact, MetaFits, Owned, Doubled;
    var b := FirstOpenBlock(m.dirs);
    if b < |m.dirs| {
      assert DirShape(g, m.dirs[b]);
    }
  }

  // ── One call ───────────────────────────────────────────────────────────────

  lemma BeginSteady(g: Geometry, s: Sys, a: Abs)
    requires Steady(g, s, a)
    ensures Steady(g, Begin(s), a) && TraceOk(g, Begin(s).trace, a, a)
  {
    hide Survives, Consistent, Sound, Sized, DirsLag;
    assert PointOk(g, Point(s.disk, s.dur, s.dur), a, a) by {
      PageZeroClean(s.disk);
    }
  }

  lemma BeginShows(g: Geometry, s: Sys, v: View)
    requires Shows(g, s, v)
    ensures Shows(g, Begin(s), v) && TraceOk(g, Begin(s).trace, v.pages, v.pages)
  {
    hide Steady, TraceOk;
    BeginSteady(g, s, v.pages);
  }

  /** A call that leaves the directory in memory alone. */
  lemma SameShows(g: Geometry, s: Sys, s': Sys, v: View)
    requires Shows(g, s, v) && Steady(g, s', v.pages) && s'.mem.dirs == s.mem.dirs
    ensures Shows(g, s', v.(mapped := s'.mapped))
  {
    hide Steady, EntryOf;
    forall id: nat
      ensures EntryOf(g, s'.mem, id) == EntryOf(g, s.mem, id)
    {
      EntryByDirs(g, s'.mem, s.mem, id);
    }
  }

  /** A call that changed entry `id` in memory and whose directory commit landed. */
  lemma LandedShows(g: Geometry, s: Sys, s': Sys, v: View, id: nat, w: Option<Option<Page>>, v': View)
    requires Shows(g, s, v) && v' == View(After(g, s'.dur, v.pages, id, w), v'.shown, s'.mapped)
    requires Steady(g, s', v'.pages) && OthersKept(g, s.mem, s'.mem, id)
    requires v'.shown == if w.Some? then v.shown + {id} else v.shown - {id}
    requires InUse(g, s'.mem, id) <==> w.Some?
    ensures Shows(g, s', v') && Lands(v, {id}, v'.pages)
    ensures id in v'.pages <==> w.Some?
    ensures w.Some? ==> v'.pages[id] == w.value
  {
    hide Steady, EntryOf;
    forall k | k in v.shown && k != id
      ensures k in v'.pages
    {
      ShownInContents(g, s', v'.pages, k);
    }
  }

  /** A free that stayed in memory. */
  lemma PendingShows(g: Geometry, s: Sys, s': Sys, v: View, id: nat)
    requires Shows(g, s, v) && Steady(g, s', v.pages) && OthersKept(g, s.mem, s'.mem, id)
    requires !InUse(g, s'.mem, id)
    ensures Shows(g, s', View(v.pages, v.shown - {id}, s'.mapped))
  {
    hide Steady, EntryOf;
  }

  lemma AllocProtectedShows(g: Geometry, s: Sys, env: Env, v: View) returns (v': View)
    requires Shows(g, s, v) && TraceOk(g, s.trace, v.pages, v.pages) && |s.mem.blocks| == |s.mem.dirs|
    requires Capacity(g, s.mem.meta, Needed(g, s.mem)) && s.mem.meta.generation + 1 < U64_LIMIT
    ensures
      var (s', r) := AllocProtected(g, s, env);
      && Shows(g, s', v') && TraceOk(g, s'.trace, v.pages, v'.pages)
      && AbsStep(v, OpAllocProtected(env), Id(r), v')
  {
    hide Shows, Steady, TraceOk, AllocProtected, Capacity, NextSlot, Epp, IdAt, EntryOf, OthersKept, After, SmallestUnused, Lands,
         AbsStep, Consistent, Needed;
    ShowsReady(g, s, v);
    SteadyMeta(g, s, v.pages);
    SlotInRange(g, s.mem);
    AllocProtectedSafe(g, s, env, v.pages);
    AllocProtectedEntries(g, s, env);
    var (s', r) := AllocProtected(g, s, env);
    match r
    case Err(e) =>
      v' := v.(mapped := s'.mapped);
      SameShows(g, s, s', v);
      AbsRefused(v, env, e, v');
    case Ok(id) =>
      NewIdIsSmallest(g, s, env, v);
      v' := View(After(g, s'.dur, v.pages, id, Some(None)), v.shown + {id}, true);
      LandedShows(g, s, s', v, id, Some(None), v');
      AbsAllocated(v, env, id, v');
  }

  lemma AbsAllocated(v: View, env: Env, id: nat, v': View)
    requires SmallestUnused(v.shown, id) && v'.shown == v.shown + {id} && v'.mapped
    requires Lands(v, {id}, v'.pages) && id in v'.pages && v'.pages[id] == None
    ensures AbsStep(v, OpAllocProtected(env), Id(Ok(id)), v')
  {
    hide SmallestUnused, Lands;
  }

  lemma AbsRefused(v: View, env: Env, e: Error, v': View)
    requires v' == v.(mapped := v'.mapped)
    ensures AbsStep(v, OpAllocProtected(env), Id(Err(e)), v')
  {
  }

  lemma FreeProtectedShows(g: Geometry, s: Sys, id: nat, v: View) returns (v': View)
    requires Shows(g, s, v) && TraceOk(g, s.trace, v.pages, v.pages) && |s.mem.blocks| == |s.mem.dirs|
    requires s.mem.meta.generation + 1 < U64_LIMIT
    ensures
      var (s', r) := FreeProtected(g, s, id);
      && Shows(g, s', v') && TraceOk(g, s'.trace, v.pages, v'.pages)
      && AbsStep(v, OpFreeProtected(id), Unit(r), v')
  {
    hide Steady, TraceOk, FreeProtected, EntryOf, OthersKept, After, Lands;
    FreeProtectedSafe(g, s, id, v.pages);
    var (s', r) := FreeProtected(g, s, id);
    v' := View(Surviving(g, s, id, s', v.pages), v.shown - {id}, s.mapped);
    if !InUse(g, s.mem, id) {
      assert v' == v;
      SameShows(g, s, s', v);
    } else {
      FreedEntries(g, s, id);
      if s.mapped {
        LandedShows(g, s, s', v, id, None, v');
      } else {
        PendingShows(g, s, s', v, id);
      }
    }
  }

  lemma WriteProtectedShows(g: Geometry, s: Sys, id: nat, page: Page, v: View) returns (v': View)
    requires Shows(g, s, v) && TraceOk(g, s.trace, v.pages, v.pages) && |s.mem.blocks| == |s.mem.dirs|
    requires |page| == g.pageSize && EntryOf(g, s.mem, id).generation + 1 < U64_LIMIT
    ensures
      var (s', r) := WriteProtected(g, s, id, page);
      && Shows(g, s', v') && TraceOk(g, s'.trace, v.pages, v'.pages)
      && AbsStep(v, OpWriteProtected(id, page), Unit(r), v')
  {
    hide Steady, TraceOk, WriteProtected, EntryOf, OthersKept, After, Lands, Flipped;
    WriteProtectedSafe(g, s, id, page, v.pages);
    var (s', r) := WriteProtected(g, s, id, page);
    v' := View(Rewriting(g, s, id, page, s', v.pages), v.shown, s.mapped);
    if InUse(g, s.mem, id) && s.mapped {
      WrittenPageEntries(g, s, id, page);
      assert InUse(g, s'.mem, id) by {
        StillInUse(g, s.mem, s'.mem, id);
      }
      assert v.shown + {id} == v.shown;
      LandedShows(g, s, s', v, id, Some(Some(page)), v');
    } else {
      SameShows(g, s, s', v);
    }
  }

  /** Committing what the inactive copy of a page holds, whatever staged it. */
  lemma CommitWriteShows(g: Geometry, s: Sys, id: nat, v: View) returns (v': View)
    requires Shows(g, s, v) && TraceOk(g, s.trace, v.pages, v.pages) && |s.mem.blocks| == |s.mem.dirs|
    requires s.mapped && InUse(g, s.mem, id) && EntryOf(g, s.mem, id).generation + 1 < U64_LIMIT
    ensures
      var (s', r) := CommitWrite(g, s, id);
      var staged := MappedPage(s.disk, InactivePhys(EntryOf(g, s.mem, id)));
      && Shows(g, s', v') && TraceOk(g, s'.trace, v.pages, v'.pages)
      && AbsStep(v, OpWriteProtected(id, staged), Unit(r), v')
  {
    hide Steady, TraceOk, CommitWrite, EntryOf, OthersKept, After, Lands, Flipped, MappedPage, InactivePhys;
    SteadyReady(g, s, v.pages);
    CommitWriteSafe(g, s, id, v.pages);
    CommitWriteEntries(g, s, id);
    StillInUse(g, s.mem, CommitWrite(g, s, id).0.mem, id);
    var s' := CommitWrite(g, s, id).0;
    var staged := MappedPage(s.disk, InactivePhys(EntryOf(g, s.mem, id)));
    v' := View(After(g, s'.dur, v.pages, id, Some(Some(staged))), v.shown, true);
    assert v.shown + {id} == v.shown;
    ReadySteady(g, s', v'.pages);
    LandedShows(g, s, s', v, id, Some(Some(staged)), v');
  }

  lemma StillInUse(g: Geometry, m: Mem, m': Mem, id: nat)
    requires InUse(g, m, id) && exists c :: EntryOf(g, m', id) == Flipped(EntryOf(g, m, id), c)
    ensures InUse(g, m', id)
  {
    hide EntryOf;
  }

  /** Every call, from every state between calls, mapped or not: it ends in such a state again,
      it does to the protected pages what it should, and each disk it passes through recovers to
      the contents before or after it. */
  lemma CallSafe(g: Geometry, s: Sys, op: Op, v: View) returns (v': View)
    requires Shows(g, s, v) && Allowed(g, s, op)
    ensures
      var (s', r) := Do(g, Begin(s), op);
      Shows(g, s', v') && TraceOk(g, s'.trace, v.pages, v'.pages) && AbsStep(v, op, r, v')
  {
    hide Shows, TraceOk, Capacity, Referenced, Alloc, AllocBulk, Free, FreeBulk, WriteRegular,
         AllocProtected, FreeProtected, StageWrite, WriteProtected, InUse, EntryOf, SmallestUnused, Lands, Needed;
    var t := Begin(s);
    BeginShows(g, s, v);
    ShowsReady(g, t, v);
    match op
    case OpAllocProtected(env) => v' := AllocProtectedShows(g, t, env, v);
    case OpFreeProtected(id) => v' := FreeProtectedShows(g, t, id, v);
    case OpWriteProtected(id, page) => v' := WriteProtectedShows(g, t, id, page, v);
    case _ =>
      v' := v.(mapped := Do(g, t, op).0.mapped);
      RegularSafe(g, s, op, v);
  }

  /** The calls that leave the directory alone. */
  lemma RegularSafe(g: Geometry, s: Sys, op: Op, v: View)
    requires Shows(g, s, v) && Allowed(g, s, op)
    requires !op.OpAllocProtected? && !op.OpFreeProtected? && !op.OpWriteProtected?
    ensures
      var s' := Do(g, Begin(s), op).0;
      && Shows(g, s', v.(mapped := s'.mapped)) && TraceOk(g, s'.trace, v.pages, v.pages)
      && (!op.OpAlloc? && !op.OpAllocBulk? ==> s'.mapped == v.mapped)
  {
    hide Shows, TraceOk, Steady, Capacity, Referenced, Alloc, AllocBulk, Free, FreeBulk, WriteRegular, StageWrite, InUse, EntryOf,
         AllocProtected, FreeProtected, WriteProtected;
    var t := Begin(s);
    BeginShows(g, s, v);
    ShowsReady(g, t, v);
    ShowsMapped(g, s, v);
    match op {
      case OpAlloc(env) => AllocSafe(g, t, env, v.pages);
      case OpAllocBulk(env, count) => AllocBulkSafe(g, t, env, count, v.pages);
      case OpFree(id) => FreeSafe(g, t, id, v.pages);
      case OpFreeBulk(ids) => FreeBulkSafe(g, t, ids, v.pages);
      case OpWriteRegular(id, page) => WriteRegularSafe(g, t, id, page, v.pages);
      case OpStage(id, page) =>
        StageWriteSafe(g, t, id, page, v.pages);
        StageFrame(g, t, id, page);
    }
    SameShows(g, t, Do(g, t, op).0, v);
  }

  lemma ShowsMapped(g: Geometry, s: Sys, v: View)
    requires Shows(g, s, v)
    ensures v.mapped == s.mapped
  {
  }

  // ── Creation and reopening ─────────────────────────────────────────────────

  function InitialMem(): Mem {
    Mem(NewMeta(4), A, [], [])
  }

  /** The file `create` writes: both metadata pages hold the empty bitmap. */
  function InitialFile(g: Geometry): seq<Page> {
    var meta := MetaBytes(g, NewMeta(4));
    [Page0(g, InitialMem()), meta, meta, Zeros(g.pageSize)]
  }

  /** A pager that has just mapped a file. */
  function Boot(m: Mem, file: seq<Page>): Sys {
    Sys(m, m, true, Fresh(file), [])
  }

  function Created(g: Geometry): Sys {
    Boot(InitialMem(), InitialFile(g))
  }

  lemma InitialConsistent(g: Geometry)
    ensures Consistent(g, InitialMem())
  {
    hide Exact, MetaFits, Doubled, Referenced, NewMeta;
    NewMetaExact(4);
    InitialFits(g);
    FourIsDoubled();
    NothingReferenced();
  }

  lemma InitialFits(g: Geometry)
    ensures MetaFits(g, NewMeta(4)) && NewMeta(4).total == 4
  {
  }

  lemma FourIsDoubled()
    ensures Doubled(4)
  {
    assert 4 == 4 * Pow2(0);
  }

  lemma NothingReferenced()
    ensures Referenced(InitialMem()) == multiset{}
  {
    hide RefBags, DirBags, NewMeta;
    NoBags();
    assert Sum([]) == multiset{};
  }

  lemma NoBags()
    ensures RefBags([]) == [] && DirBags([]) == []
  {
  }

  /** The file `create` leaves, with the pages as `open` will look for them. */
  lemma InitialPages(g: Geometry)
    ensures
      var file := InitialFile(g);
      && |file| == 4 && file[0 := file[0]] == file && file[0] == Page0(g, InitialMem())
      && file[1] == MetaBytes(g, InitialMem().meta)
      && forall i :: 0 <= i < |file| ==> |file[i]| == g.pageSize
  {
    hide Page0, MetaBytes, NewMeta, Consistent;
    InitialConsistent(g);
    CommitPages(g, InitialMem());
  }

  lemma InitialSurvives(g: Geometry)
    ensures Survives(g, InitialMem(), Fresh(InitialFile(g)), InitialFile(g)[0], map[])
  {
    hide Consistent, Page0, MetaBytes, InitialFile, NewMeta;
    InitialConsistent(g);
    InitialFits(g);
    InitialPages(g);
  }

  lemma CreatedReady(g: Geometry)
    ensures Ready(g, Created(g), map[])
  {
    hide Ready, Survives, InitialFile, Page0, MetaBytes, NewMeta;
    InitialPages(g);
    InitialSurvives(g);
    BootReady(g, InitialMem(), InitialFile(g), map[]);
  }

  /** Straight after creating or opening, memory is what the file says. */
  lemma BootShows(g: Geometry, s: Sys, a: Abs)
    requires Ready(g, s, a) && s.mem == s.dur
    ensures Shows(g, s, Reopened(a))
  {
    hide Survives, Sound, Sized, Consistent, DirsLag;
    InUseDurable(g, s, a);
  }

  lemma InUseDurable(g: Geometry, s: Sys, a: Abs)
    requires Durable(g, s, a)
    ensures forall id: nat :: id in a <==> InUse(g, s.dur, id)
  {
    hide InUse, CopyHolds, Encodes, CleanCore, Consistent;
  }

  lemma BootReady(g: Geometry, m: Mem, file: seq<Page>, a: Abs)
    requires |file| >= 4 && Survives(g, m, Fresh(file), file[0], a)
    requires forall i :: 0 <= i < |file| ==> |file[i]| == g.pageSize
    ensures Ready(g, Boot(m, file), a)
  {
    hide Consistent, Encodes, Holds;
    LagsItself(m.dirs);
    assert m.(meta := m.meta) == m;
  }

  lemma ImageSized(g: Geometry, d: Disk, file: seq<Page>)
    requires CrashImage(g, d, file)
    ensures forall i :: 0 <= i < |file| ==> |file[i]| == g.pageSize
  {
  }

  lemma PointParts(g: Geometry, pt: Point, a: Abs, b: Abs)
    requires PointOk(g, pt, a, b)
    ensures |pt.disk.durable| == |pt.disk.mapped| >= 4 && Sized(g, pt.disk)
    ensures Survives(g, pt.cur, pt.disk, pt.disk.durable[0], a)
    ensures Survives(g, pt.next, pt.disk, pt.disk.mapped[0], b)
  {
    hide Survives, Sized;
  }

  lemma ImageStart(g: Geometry, d: Disk, file: seq<Page>)
    requires CrashImage(g, d, file) && |d.durable| == |d.mapped| >= 4
    ensures |file| == |d.durable| && (file[0] == d.durable[0] || file[0] == d.mapped[0])
  {
  }

  /** Reopening after a crash at one disk of a good trace. */
  lemma PointRecovers(g: Geometry, pt: Point, a: Abs, b: Abs, file: seq<Page>) returns (c: Abs)
    requires PointOk(g, pt, a, b) && CrashImage(g, pt.disk, file)
    ensures c == a || c == b
    ensures Open(g, file).Ok?
    ensures var m := Open(g, file).value;
      && (m == pt.cur || m == pt.next)
      && Ready(g, Boot(m, file), c)
  {
    hide PointOk, Survives, CrashImage, Sized, Open, Ready;
    PointParts(g, pt, a, b);
    ImageStart(g, pt.disk, file);
    ImageSized(g, pt.disk, file);
    if file[0] == pt.disk.durable[0] {
      CrashRecovers(g, pt.cur, pt.disk, a, file);
      BootReady(g, pt.cur, file, a);
      c := a;
    } else {
      CrashRecovers(g, pt.next, pt.disk, b, file);
      BootReady(g, pt.next, file, b);
      c := b;
    }
  }

  // ── Runs ───────────────────────────────────────────────────────────────────

  datatype Event =
    | Call(op: Op, reply: Reply)
    | CrashDuring(op: Op, at: nat, file: seq<Page>)
    | Reboot(file: seq<Page>)

  /** `Call` is a call with the reply it gave. `CrashDuring` stops the call at one of the disks
      it passes through; the file is then any image that disk allows, and the pager is opened
      again. `Reboot` does so between calls. */
  ghost predicate Next(g: Geometry, s: Sys, e: Event, s': Sys) {
    match e
    case Call(op, reply) => Allowed(g, s, op) && (s', reply) == Do(g, Begin(s), op)
    case CrashDuring(op, at, file) =>
      && Allowed(g, s, op)
      && at < |Do(g, Begin(s), op).0.trace|
      && CrashImage(g, Do(g, Begin(s), op).0.trace[at].disk, file)
      && Open(g, file).Ok? && s' == Boot(Open(g, file).value, file)
    case Reboot(file) =>
      CrashImage(g, s.disk, file) && Open(g, file).Ok? && s' == Boot(Open(g, file).value, file)
  }

  /** A crash during a call is as if the call had not been made, or had been made in full. */
  ghost predicate AbsCrash(v: View, op: Op, v': View) {
    || v' == Reopened(v.pages)
    || exists r, w :: AbsStep(v, op, r, w) && v' == Reopened(w.pages)
  }

  ghost predicate AbsNext(v: View, e: Event, v': View) {
    match e
    case Call(op, reply) => AbsStep(v, op, reply, v')
    case CrashDuring(op, _, _) => AbsCrash(v, op, v')
    case Reboot(_) => v' == Reopened(v.pages)
  }

  ghost predicate IsRun(g: Geometry, ss: seq<Sys>, es: seq<Event>) {
    && |ss| == |es| + 1 && ss[0] == Created(g)
    && forall i :: 0 <= i < |es| ==> Next(g, ss[i], es[i], ss[i + 1])
  }

  ghost predicate IsAbsRun(views: seq<View>, es: seq<Event>) {
    && |views| == |es| + 1 && views[0] == Reopened(map[])
    && forall i :: 0 <= i < |es| ==> AbsNext(views[i], es[i], views[i + 1])
  }

  lemma RunLength(g: Geometry, ss: seq<Sys>, es: seq<Event>)
    requires IsRun(g, ss, es)
    ensures |ss| == |es| + 1
  {
  }

  /** No crash in the middle of a call is fatal: whatever disk it catches and whatever the
      crash makes of that disk, `open` succeeds, and what it finds is the contents before the
      call or after it, in a state that satisfies the whole invariant. */
  lemma CrashDuringCall(g: Geometry, s: Sys, op: Op, v: View, at: nat, file: seq<Page>) returns (v': View)
    requires Shows(g, s, v) && Allowed(g, s, op)
    requires at < |Do(g, Begin(s), op).0.trace|
    requires CrashImage(g, Do(g, Begin(s), op).0.trace[at].disk, file)
    ensures Open(g, file).Ok?
    ensures
      var m, pt := Open(g, file).value, Do(g, Begin(s), op).0.trace[at];
      (m == pt.cur || m == pt.next) && Shows(g, Boot(m, file), v') && v'.mapped
    ensures AbsCrash(v, op, v')
  {
    hide Ready, Shows, Capacity, OwnPages, Do, PointOk, CrashImage, AbsStep, Open;
    var w := CallSafe(g, s, op, v);
    var (s', r) := Do(g, Begin(s), op);
    var pt := s'.trace[at];
    var c: Abs;
    if PointOk(g, pt, v.pages, v.pages) {
      c := PointRecovers(g, pt, v.pages, v.pages, file);
    } else if PointOk(g, pt, v.pages, w.pages) {
      c := PointRecovers(g, pt, v.pages, w.pages, file);
    } else {
      c := PointRecovers(g, pt, w.pages, w.pages, file);
    }
    v' := Reopened(c);
    BootShows(g, Boot(Open(g, file).value, file), c);
  }

  lemma CrashBetweenCalls(g: Geometry, s: Sys, a: Abs, file: seq<Page>)
    requires Steady(g, s, a) && CrashImage(g, s.disk, file)
    ensures Open(g, file) == Ok(s.dur)
    ensures Ready(g, Boot(s.dur, file), a)
  {
    hide Survives, Consistent, DirsLag;
    PageZeroClean(s.disk);
    CrashRecovers(g, s.dur, s.disk, a, file);
    BootReady(g, s.dur, file, a);
  }

  lemma EventRefines(g: Geometry, s: Sys, e: Event, s': Sys, v: View) returns (v': View)
    requires Shows(g, s, v) && Next(g, s, e, s')
    ensures Shows(g, s', v') && AbsNext(v, e, v')
  {
    hide Shows, Ready, CrashImage, AbsStep, Open, Do;
    match e
    case Call(op, reply) =>
      v' := CallSafe(g, s, op, v);
    case CrashDuring(op, at, file) =>
      v' := CrashDuringCall(g, s, op, v, at, file);
    case Reboot(file) =>
      ShowsReady(g, s, v);
      CrashBetweenCalls(g, s, v.pages, file);
      BootShows(g, s', v.pages);
      v' := Reopened(v.pages);
  }

  /** Refinement over whole runs, lost mappings and revivals included: calls act on the protected
      pages as the abstract store does, and every crash is as if it had come before or after the
      call it interrupted. */
  lemma {:induction false} RunRefines(g: Geometry, ss: seq<Sys>, es: seq<Event>) returns (views: seq<View>)
    requires IsRun(g, ss, es)
    ensures IsAbsRun(views, es)
    ensures forall i :: 0 <= i < |ss| ==> Shows(g, ss[i], views[i])
    decreases |es|
  {
    hide Shows, Next, AbsNext, Created, Ready;
    if es == [] {
      CreatedReady(g);
      CreatedMemory(g);
      BootShows(g, Created(g), map[]);
      views := [Reopened(map[])];
    } else {
      var n := |es| - 1;
      var before := RunRefines(g, ss[..n + 1], es[..n]);
      var v := EventRefines(g, ss[n], es[n], ss[n + 1], before[n]);
      views := before + [v];
    }
  }

  lemma CreatedMemory(g: Geometry)
    ensures Created(g).mem == Created(g).dur && Created(g).mapped
  {
  }

  // ── Every disk can be caught by a crash ────────────────────────────────────

  /** In every state of every run each page, mapped or durable, is one page long, and what is
      durable is a possible crash image, which `open` accepts. */
  lemma DisksAreWhole(g: Geometry, ss: seq<Sys>, es: seq<Event>, i: nat)
    requires IsRun(g, ss, es) && i < |ss|
    ensures Sized(g, ss[i].disk) && CrashImage(g, ss[i].disk, ss[i].disk.durable)
    ensures Open(g, ss[i].disk.durable) == Ok(ss[i].dur)
  {
    hide Shows, IsRun, Sized, CrashImage, Open, AbsNext, Steady;
    RunLength(g, ss, es);
    var views := RunRefines(g, ss, es);
    ShowsReady(g, ss[i], views[i]);
    SteadyWhole(g, ss[i], views[i].pages);
    CrashBetweenCalls(g, ss[i], views[i].pages, ss[i].disk.durable);
  }

  lemma SteadyWhole(g: Geometry, s: Sys, a: Abs)
    requires Steady(g, s, a)
    ensures Sized(g, s.disk) && CrashImage(g, s.disk, s.disk.durable)
  {
    hide Survives, Consistent, Sized, CrashImage, DirsLag;
    DurableIsImage(g, s.disk);
  }

  /** The same for every disk a call passes through. */
  lemma CallDisksAreWhole(g: Geometry, s: Sys, op: Op, v: View, at: nat)
    requires Shows(g, s, v) && Allowed(g, s, op)
    requires at < |Do(g, Begin(s), op).0.trace|
    ensures
      var d := Do(g, Begin(s), op).0.trace[at].disk;
      Sized(g, d) && CrashImage(g, d, d.durable)
  {
    hide Shows, Capacity, OwnPages, EntryOf, Do, PointOk, CrashImage, AbsStep, Sized;
    var w := CallSafe(g, s, op, v);
    var pt := Do(g, Begin(s), op).0.trace[at];
    if PointOk(g, pt, v.pages, v.pages) {
      PointParts(g, pt, v.pages, v.pages);
    } else if PointOk(g, pt, v.pages, w.pages) {
      PointParts(g, pt, v.pages, w.pages);
    } else {
      PointParts(g, pt, w.pages, w.pages);
    }
    DurableIsImage(g, pt.disk);
  }
}
