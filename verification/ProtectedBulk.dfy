/** Bulk allocation and release of protected pages, which are sequences of single calls. */
module ProtectedBulk {
  import opened Bytes
  import opened Results
  import opened Metadata
  import opened Layout
  import opened Disks
  import opened Recovery
  import opened Sorting
  import opened PagerSpec
  import opened Ownership
  import opened Safety
  import opened DirSafety
  import opened RawAllocation
  import opened DirChanges
  import opened Entries
  import opened Operations
  import opened Bulk
  import opened Runs

  /** Free the ids one call at a time, stopping at the first failure. */
  function FreeEach(g: Geometry, s: Sys, ids: seq<nat>): (Sys, Result<()>)
    requires |s.mem.blocks| == |s.mem.dirs|
    decreases |ids|
  {
    if ids == [] then (s, Ok(()))
    else
      var (s1, r) := FreeProtected(g, Begin(s), ids[0]);
      if r.Err? then (s1, r) else FreeEach(g, s1, ids[1..])
  }

  /** The first id, in the order given, that is not an id in use. */
  function CheckEntries(g: Geometry, m: Mem, ids: seq<nat>): Result<()> {
    if ids == [] then Ok(())
    else if !HasEntry(m, BlockOf(g, ids[0]), SlotOf(g, ids[0])) then Err(OutOfBounds)
    else if !InUse(g, m, ids[0]) then Err(DoubleFree)
    else CheckEntries(g, m, ids[1..])
  }

  function FreeProtectedBulk(g: Geometry, s: Sys, ids: seq<nat>): (Sys, Result<()>)
    requires |s.mem.blocks| == |s.mem.dirs|
  {
    if ids == [] then (s, Ok(()))
    else
      var sorted := Sort(ids, IdLeq);
      if AdjacentEqual(sorted) then (s, Err(DoubleFree))
      else
        match CheckEntries(g, s.mem, sorted)
        case Err(e) => (s, Err(e))
        case Ok(_) => FreeEach(g, s, sorted)
  }

  /** Allocate one call at a time: the ids obtained and the first failure, if any. */
  function AllocEach(g: Geometry, s: Sys, env: Env, n: nat): (r: (Sys, seq<nat>, Result<()>))
    requires |s.mem.blocks| == |s.mem.dirs|
    ensures |r.0.mem.blocks| == |r.0.mem.dirs|
    decreases n
  {
    if n == 0 then (s, [], Ok(()))
    else
      var (s1, r) := AllocProtected(g, Begin(s), env);
      match r
      case Err(e) => (s1, [], Err(e))
      case Ok(id) =>
        var (s2, ids, r2) := AllocEach(g, s1, env, n - 1);
        (s2, [id] + ids, r2)
  }

  /** The rollback: failures of the single frees are ignored. */
  function FreeAnyway(g: Geometry, s: Sys, ids: seq<nat>): Sys
    requires |s.mem.blocks| == |s.mem.dirs|
    decreases |ids|
  {
    if ids == [] then s else FreeAnyway(g, FreeProtected(g, Begin(s), ids[0]).0, ids[1..])
  }

  function AllocProtectedBulk(g: Geometry, s: Sys, env: Env, n: nat): (Sys, Result<seq<nat>>)
    requires |s.mem.blocks| == |s.mem.dirs|
  {
    var (s1, ids, r) := AllocEach(g, s, env, n);
    match r
    case Ok(_) => (s1, Ok(ids))
    case Err(e) => (FreeAnyway(g, s1, ids), Err(e))
  }

  // ── The effect of freeing one page ─────────────────────────────────────────

  ghost function BackingOf(g: Geometry, m: Mem, ids: seq<nat>): set<nat> {
    if ids == [] then {}
    else
      var e := EntryOf(g, m, ids[0]);
      {e.pageA, e.pageB} + BackingOf(g, m, ids[1..])
  }

  /** `free_protected` gives back exactly the two backing pages and leaves every other entry. */
  lemma FreeProtectedEffect(g: Geometry, s: Sys, id: nat)
    requires Consistent(g, s.mem) && s.mapped && InUse(g, s.mem, id) && |s.mem.blocks| == |s.mem.dirs|
    ensures
      var e := EntryOf(g, s.mem, id);
      var s' := FreeProtected(g, s, id).0;
      && AllocatedSet(s'.mem.meta) == AllocatedSet(s.mem.meta) - {e.pageA, e.pageB}
      && s'.mem.meta.generation == s.mem.meta.generation + 1
      && OthersKept(g, s.mem, s'.mem, id)
  {
    hide FreeProtected, Commit, CommitDir, Unmark, Rewritten, Consistent, AllocatedSet, FreshPage, Epp, BlockOf, SlotOf,
         OthersKept;
    InUseHasEntry(g, s.mem, id);
    FreedEntries(g, s, id);
    FreeProtectedSteps(g, s, id);
    var b, slot := BlockOf(g, id), SlotOf(g, id);
    var e := s.mem.dirs[b].entries[slot];
    var s1 := CommitDir(g, s.(mem := Rewritten(s.mem, b, slot, e.(inUse := false))), b).0;
    var meta := Unmark(Unmark(s1.mem.meta, e.pageA), e.pageB);
    CommitFrame(g, WithMeta(s1, meta));
    DropReleases(g, s.mem, b, slot, meta);
  }

  lemma DropReleases(g: Geometry, m: Mem, b: nat, slot: nat, meta: Meta)
    requires Consistent(g, m) && HasEntry(m, b, slot) && m.dirs[b].entries[slot].inUse
    requires
      var e := m.dirs[b].entries[slot];
      meta == Unmark(Unmark(m.meta, e.pageA), e.pageB)
    ensures
      var e := m.dirs[b].entries[slot];
      && AllocatedSet(NextGeneration(meta)) == AllocatedSet(m.meta) - {e.pageA, e.pageB}
      && meta.generation == m.meta.generation
  {
    hide Unmark, AllocatedSet, FreshPage, Exact, MetaFits, Doubled, DirShape, Referenced;
    var e := m.dirs[b].entries[slot];
    DropEntryConsistent(g, m, b, slot);
    DroppedPagesFresh(m, b, slot);
    ReleaseTwo(g, Rewritten(m, b, slot, e.(inUse := false)), e.pageA, e.pageB);
    GenerationOnly(meta);
  }

  // ── The effect of allocating and of writing one page ───────────────────────

  /** An entry in use on two pages that were free, its first copy active. */
  ghost predicate FreshEntry(m: Meta, e: DirEntry) {
    && e.inUse && e.pageA != e.pageB && e.pageA !in AllocatedSet(m) && e.pageB !in AllocatedSet(m)
    && e.activeSlot == 0 && e.generation == 0
  }

  lemma TakenEntry(g: Geometry, m: Meta, m': Meta, d: Disk, ids: seq<nat>, i: nat)
    requires TookPages(m, m', ids) && i + 1 < |ids|
    ensures FreshEntry(m, NewEntry(g, d, ids[i], ids[i + 1]))
  {
    hide AllocatedSet;
    assert ids[i] in ids && ids[i + 1] in ids;
  }

  lemma InBlockEffect(g: Geometry, s: Sys, env: Env, b: nat)
    requires Consistent(g, s.mem) && Capacity(g, s.mem.meta, 2)
    requires |s.mem.blocks| == |s.mem.dirs| && b == FirstOpenBlock(s.mem.dirs) < |s.mem.dirs|
    ensures
      var (s', r) := AllocInBlock(g, s, env, b);
      r.Ok? ==> FreshEntry(s.mem.meta, EntryOf(g, s'.mem, r.value))
  {
    hide AllocInBlock, AllocRaws, Commit, CommitDir, Rewritten, FirstFreeEntry, FirstOpenBlock, NewEntry, FreshEntry,
         TookPages, TakesSmallest, Consistent, Capacity, AllocatedSet, Epp, EntryOf, IdAt, NextSlot, GrownTotal;
    AllocInBlockSteps(g, s, env, b);
    RawsKeepDirs(g, s, env, 2);
    RawsTakeSmallest(g, s, env, 2);
    FreeEntryUnused(s.mem, b);
    SlotInRange(g, s.mem);
    SlotFound(s.mem);
    var (s1, ids, r) := AllocRaws(g, s, env, 2);
    if r.Ok? && s1.mapped {
      var s2 := Commit(g, s1).0;
      TakenEntry(g, s.mem.meta, s1.mem.meta, s2.disk, ids, 0);
      WrittenEntries(g, s, s2.mem, b, FirstFreeEntry(s.mem.dirs[b].entries), NewEntry(g, s2.disk, ids[0], ids[1]),
                     AllocInBlock(g, s, env, b).0);
    }
  }

  lemma NewBlockEffect(g: Geometry, s: Sys, env: Env)
    requires Consistent(g, s.mem) && Capacity(g, s.mem.meta, 4)
    requires |s.mem.blocks| == |s.mem.dirs|
    ensures
      var (s', r) := AllocNewBlock(g, s, env);
      r.Ok? ==> FreshEntry(s.mem.meta, EntryOf(g, s'.mem, r.value))
  {
    hide AllocNewBlock, AllocRaws, Commit, CommitDir, AppendBlock, NewEntry, FreshEntry,
         TookPages, TakesSmallest, Consistent, Capacity, AllocatedSet, Epp, EntryOf, IdAt, GrownTotal;
    AllocNewBlockSteps(g, s, env);
    RawsKeepDirs(g, s, env, 4);
    RawsTakeSmallest(g, s, env, 4);
    var (s1, ids, r) := AllocRaws(g, s, env, 4);
    if r.Ok? && s1.mapped {
      var s2 := Commit(g, s1).0;
      var e := NewEntry(g, s2.disk, ids[2], ids[3]);
      TakenEntry(g, s.mem.meta, s1.mem.meta, s2.disk, ids, 2);
      AppendDiffers(g, s2.mem, ids[0], ids[1], e);
      EntryOfDiffers(g, s2.mem, AppendBlock(g, s2.mem, ids[0], ids[1], e), IdAt(g, |s.mem.dirs|, 0), e);
      EntryByDirs(g, AppendBlock(g, s2.mem, ids[0], ids[1], e), AllocNewBlock(g, s, env).0.mem, IdAt(g, |s.mem.dirs|, 0));
    }
  }

  /** `alloc_protected` puts the new id on two pages that were free and leaves every other
      id's backing pages, active copy, generation and checksum as they were. */
  lemma AllocProtectedEffect(g: Geometry, s: Sys, env: Env)
    requires Consistent(g, s.mem) && Capacity(g, s.mem.meta, Needed(g, s.mem)) && |s.mem.blocks| == |s.mem.dirs|
    ensures
      var (s', r) := AllocProtected(g, s, env);
      && (r.Ok? ==> FreshEntry(s.mem.meta, EntryOf(g, s'.mem, r.value)) && OthersKept(g, s.mem, s'.mem, r.value))
      && (r.Err? ==> s'.mem.dirs == s.mem.dirs)
  {
    hide AllocProtected, AllocInBlock, AllocNewBlock, Consistent, Capacity, FreshEntry, EntryOf, FirstFreeEntry, OthersKept,
         Epp, IdAt, NextSlot;
    AllocProtectedCases(g, s, env);
    SlotInRange(g, s.mem);
    AllocProtectedEntries(g, s, env);
    var b := FirstOpenBlock(s.mem.dirs);
    if b < |s.mem.dirs| {
      InBlockEffect(g, s, env, b);
    } else if |s.mem.blocks| < MaxDirBlocks(g.pageSize) {
      NewBlockEffect(g, s, env);
    }
  }

  lemma InBlockPages(g: Geometry, s: Sys, env: Env, b: nat) returns (ids: seq<nat>)
    requires Consistent(g, s.mem) && Capacity(g, s.mem.meta, 2)
    requires |s.mem.blocks| == |s.mem.dirs| && b == FirstOpenBlock(s.mem.dirs) < |s.mem.dirs|
    ensures
      var (s', r) := AllocInBlock(g, s, env, b);
      r.Ok? ==>
        && |ids| == 2 && TookPages(s.mem.meta, s'.mem.meta, ids) && TakesSmallest(s.mem.meta, ids)
        && s'.mem.blocks == FlipBlock(s.mem.blocks, b)
        && EntryOf(g, s'.mem, r.value).pageA == ids[0] && EntryOf(g, s'.mem, r.value).pageB == ids[1]
  {
    hide AllocInBlock, AllocRaws, Commit, CommitDir, Rewritten, FirstFreeEntry, FirstOpenBlock,
         TookPages, TakesSmallest, Consistent, Capacity, AllocatedSet, Epp, EntryOf, IdAt, NextSlot, GrownTotal;
    AllocInBlockSteps(g, s, env, b);
    RawsKeepDirs(g, s, env, 2);
    RawsTakeSmallest(g, s, env, 2);
    FreeEntryUnused(s.mem, b);
    SlotInRange(g, s.mem);
    SlotFound(s.mem);
    var s1, r := AllocRaws(g, s, env, 2).0, AllocRaws(g, s, env, 2).2;
    ids := AllocRaws(g, s, env, 2).1;
    if r.Ok? && s1.mapped {
      var s2 := Commit(g, s1).0;
      CommitFrame(g, s1);
      TookThenBumped(s.mem.meta, s1.mem.meta, ids);
      WrittenEntries(g, s, s2.mem, b, FirstFreeEntry(s.mem.dirs[b].entries), NewEntry(g, s2.disk, ids[0], ids[1]),
                     AllocInBlock(g, s, env, b).0);
    }
  }

  lemma NewBlockPages(g: Geometry, s: Sys, env: Env) returns (ids: seq<nat>)
    requires Consistent(g, s.mem) && Capacity(g, s.mem.meta, 4)
    requires |s.mem.blocks| == |s.mem.dirs|
    ensures
      var (s', r) := AllocNewBlock(g, s, env);
      r.Ok? ==>
        && |ids| == 4 && TookPages(s.mem.meta, s'.mem.meta, ids) && TakesSmallest(s.mem.meta, ids)
        && s'.mem.blocks == s.mem.blocks + [DirBlockRef(ids[0], ids[1], B)]
        && EntryOf(g, s'.mem, r.value).pageA == ids[2] && EntryOf(g, s'.mem, r.value).pageB == ids[3]
  {
    hide AllocNewBlock, AllocRaws, Commit, CommitDir, AppendBlock,
         TookPages, TakesSmallest, Consistent, Capacity, AllocatedSet, Epp, EntryOf, IdAt, GrownTotal;
    AllocNewBlockSteps(g, s, env);
    RawsKeepDirs(g, s, env, 4);
    RawsTakeSmallest(g, s, env, 4);
    var s1, r := AllocRaws(g, s, env, 4).0, AllocRaws(g, s, env, 4).2;
    ids := AllocRaws(g, s, env, 4).1;
    if r.Ok? && s1.mapped {
      var s2 := Commit(g, s1).0;
      var e := NewEntry(g, s2.disk, ids[2], ids[3]);
      CommitFrame(g, s1);
      TookThenBumped(s.mem.meta, s1.mem.meta, ids);
      AppendFrame(g, s2.mem, ids[0], ids[1], e);
      AppendedTurned(g, s2.mem, ids[0], ids[1], e);
      AppendDiffers(g, s2.mem, ids[0], ids[1], e);
      EntryOfDiffers(g, s2.mem, AppendBlock(g, s2.mem, ids[0], ids[1], e), IdAt(g, |s.mem.dirs|, 0), e);
      EntryByDirs(g, AppendBlock(g, s2.mem, ids[0], ids[1], e), AllocNewBlock(g, s, env).0.mem, IdAt(g, |s.mem.dirs|, 0));
    }
  }

  lemma AppendedTurned(g: Geometry, m: Mem, a: nat, b: nat, e: DirEntry)
    ensures
      var m' := AppendBlock(g, m, a, b, e);
      |m'.blocks| == |m.blocks| + 1 && FlipBlock(m'.blocks, |m.blocks|) == m.blocks + [DirBlockRef(a, b, B)]
  {
  }

  /** The pages `alloc_protected` takes are the smallest free ones, in increasing order: for a new
      directory block first its two copies, of which the second becomes active, then the two
      copies of the new page. */
  lemma AllocProtectedPages(g: Geometry, s: Sys, env: Env) returns (ids: seq<nat>)
    requires Consistent(g, s.mem) && Capacity(g, s.mem.meta, Needed(g, s.mem)) && |s.mem.blocks| == |s.mem.dirs|
    ensures
      var (s', r) := AllocProtected(g, s, env);
      var b := FirstOpenBlock(s.mem.dirs);
      r.Ok? ==>
        var e := EntryOf(g, s'.mem, r.value);
        && TookPages(s.mem.meta, s'.mem.meta, ids) && TakesSmallest(s.mem.meta, ids)
        && (if b < |s.mem.blocks| then
              && |ids| == 2 && e.pageA == ids[0] && e.pageB == ids[1]
              && s'.mem.blocks == FlipBlock(s.mem.blocks, b)
            else
              && |ids| == 4 && e.pageA == ids[2] && e.pageB == ids[3]
              && s'.mem.blocks == s.mem.blocks + [DirBlockRef(ids[0], ids[1], B)])
  {
    hide AllocProtected, AllocInBlock, AllocNewBlock, Consistent, Capacity, EntryOf, FirstFreeEntry, TookPages, TakesSmallest;
    AllocProtectedCases(g, s, env);
    ids := [];
    var b := FirstOpenBlock(s.mem.dirs);
    if b < |s.mem.dirs| {
      ids := InBlockPages(g, s, env, b);
    } else if |s.mem.blocks| < MaxDirBlocks(g.pageSize) {
      ids := NewBlockPages(g, s, env);
    }
  }

  /** A protected write swaps the two copies of its own page and touches no other entry. */
  lemma WriteProtectedEffect(g: Geometry, s: Sys, id: nat, page: Page)
    requires Consistent(g, s.mem) && s.mapped && |s.mem.blocks| == |s.mem.dirs| && InUse(g, s.mem, id)
    ensures
      var (s', r) := WriteProtected(g, s, id, page);
      var e, e' := EntryOf(g, s.mem, id), EntryOf(g, s'.mem, id);
      && r.Ok? && e'.inUse && e'.pageA == e.pageA && e'.pageB == e.pageB
      && e'.generation == e.generation + 1 && ActivePhys(e') == InactivePhys(e)
      && OthersKept(g, s.mem, s'.mem, id)
  {
    hide WriteProtected, Consistent, EntryOf, OthersKept, BlockOf, SlotOf;
    WrittenPageEntries(g, s, id, page);
    InUseHasEntry(g, s.mem, id);
    SlotBound(g, s.mem, BlockOf(g, id), SlotOf(g, id));
  }

  // ── Freeing several ────────────────────────────────────────────────────────

  lemma {:induction false} BackingUnchanged(g: Geometry, m: Mem, m': Mem, id: nat, ids: seq<nat>)
    requires id !in ids && OthersKept(g, m, m', id)
    ensures BackingOf(g, m', ids) == BackingOf(g, m, ids)
  {
    hide EntryOf;
    if ids != [] {
      assert ids[0] in ids;
      BackingUnchanged(g, m, m', id, ids[1..]);
    }
  }

  /** Two steps that leave pages outside their ids alone, one after the other. */
  lemma LandsTwice(v: View, ids: set<nat>, v1: View, ids1: set<nat>, pages: Abs)
    requires Lands(v, ids, v1.pages) && Lands(v1, ids1, pages) && v.shown - ids <= v1.shown
    ensures Lands(v, ids + ids1, pages)
  {
  }

  lemma ToSetOf(ids: seq<nat>)
    ensures forall x :: x in ToSet(ids) <==> x in ids
  {
  }

  /** The view after these ids have been freed with the file mapped. */
  ghost predicate FreedAll(v: View, ids: seq<nat>, v': View) {
    && v'.mapped == v.mapped && v'.shown == v.shown - ToSet(ids)
    && Lands(v, ToSet(ids), v'.pages) && forall id :: id in ids ==> id !in v'.pages
  }

  lemma FreedOne(v: View, ids: seq<nat>, r: Reply, v1: View, v': View)
    requires ids != [] && AbsStep(v, OpFreeProtected(ids[0]), r, v1) && v.mapped && ids[0] in v.shown
    requires FreedAll(v1, ids[1..], v')
    ensures FreedAll(v, ids, v')
  {
    hide Lands;
    ToSetOf(ids);
    ToSetOf(ids[1..]);
    assert ToSet(ids) == {ids[0]} + ToSet(ids[1..]);
    LandsTwice(v, {ids[0]}, v1, ToSet(ids[1..]), v'.pages);
    forall id | id in ids
      ensures id !in v'.pages
    {
      if id == ids[0] && id !in ids[1..] {
        GoneStaysGone(v1, ToSet(ids[1..]), v'.pages, id);
      } else {
        assert id in ids[1..];
      }
    }
  }

  lemma GoneStaysGone(v: View, ids: set<nat>, pages: Abs, id: nat)
    requires Lands(v, ids, pages) && id !in v.pages && id !in ids
    ensures id !in pages
  {
  }

  lemma FreedNone(v: View)
    requires v.shown <= v.pages.Keys
    ensures FreedAll(v, [], v) && Lands(v, {}, v.pages)
  {
  }

  /** One of the single frees, of an id that is shown. */
  lemma FreeShown(g: Geometry, s: Sys, id: nat, v: View) returns (v1: View)
    requires Shows(g, s, v) && v.mapped && |s.mem.blocks| == |s.mem.dirs| && id in v.shown
    requires s.mem.meta.generation + 1 < U64_LIMIT
    ensures
      var (s1, r) := FreeProtected(g, Begin(s), id);
      var e := EntryOf(g, s.mem, id);
      && r.Ok? && Shows(g, s1, v1) && AbsStep(v, OpFreeProtected(id), Unit(r), v1)
      && v1.mapped && v1.shown == v.shown - {id}
      && AllocatedSet(s1.mem.meta) == AllocatedSet(s.mem.meta) - {e.pageA, e.pageB}
      && s1.mem.meta.generation == s.mem.meta.generation + 1
      && OthersKept(g, s.mem, s1.mem, id)
  {
    hide Shows, EntryOf, AllocatedSet, FreeProtected, Lands, TraceOk, InUse, OthersKept, Consistent;
    var t := Begin(s);
    BeginShows(g, s, v);
    ShownEntry(g, t, v, id);
    v1 := FreeProtectedShows(g, t, id, v);
    FreeProtectedEffect(g, t, id);
  }

  lemma BeginFrame(s: Sys)
    ensures Begin(s).mem == s.mem && Begin(s).mapped == s.mapped && Begin(s).dur == s.dur
  {
  }

  lemma FreeEachUnfolds(g: Geometry, s: Sys, ids: seq<nat>)
    requires |s.mem.blocks| == |s.mem.dirs|
    ensures ids == [] ==> FreeEach(g, s, ids).0 == s && FreeEach(g, s, ids).1.Ok?
    ensures ids != [] && FreeProtected(g, Begin(s), ids[0]).1.Ok? ==>
              FreeEach(g, s, ids) == FreeEach(g, FreeProtected(g, Begin(s), ids[0]).0, ids[1..])
  {
    hide FreeProtected;
  }

  lemma BackingUnfolds(g: Geometry, m: Mem, ids: seq<nat>)
    ensures ids == [] ==> BackingOf(g, m, ids) == {}
    ensures ids != [] ==>
              BackingOf(g, m, ids) == {EntryOf(g, m, ids[0]).pageA, EntryOf(g, m, ids[0]).pageB} + BackingOf(g, m, ids[1..])
  {
    hide EntryOf;
  }

  lemma RestShown(ids: seq<nat>, shown: set<nat>)
    requires ids != [] && Distinct(ids) && forall id :: id in ids ==> id in shown
    ensures ids[0] in ids && ids[0] in shown && ids[0] !in ids[1..] && Distinct(ids[1..])
    ensures forall id :: id in ids[1..] ==> id in shown - {ids[0]}
  {
    assert forall id :: id in ids[1..] ==> id in ids;
  }

  lemma {:induction false} FreeEachExact(g: Geometry, s: Sys, ids: seq<nat>, v: View) returns (v': View)
    requires Shows(g, s, v) && v.mapped && |s.mem.blocks| == |s.mem.dirs|
    requires Distinct(ids) && forall id :: id in ids ==> id in v.shown
    requires s.mem.meta.generation + |ids| < U64_LIMIT
    ensures
      var (s', r) := FreeEach(g, s, ids);
      && r.Ok? && Shows(g, s', v') && FreedAll(v, ids, v')
      && AllocatedSet(s'.mem.meta) == AllocatedSet(s.mem.meta) - BackingOf(g, s.mem, ids)
    decreases |ids|
  {
    hide *;
    BeginFrame(s);
    ShowsReady(g, s, v);
    FreeEachUnfolds(g, s, ids);
    BackingUnfolds(g, s.mem, ids);
    if ids == [] {
      FreedNone(v);
      v' := v;
    } else {
      var id, rest := ids[0], ids[1..];
      RestShown(ids, v.shown);
      var v1 := FreeShown(g, s, id, v);
      var (s1, r) := FreeProtected(g, Begin(s), id);
      ShowsReady(g, s1, v1);
      v' := FreeEachExact(g, s1, rest, v1);
      BackingUnchanged(g, s.mem, s1.mem, id, rest);
      FreedOne(v, ids, Unit(r), v1, v');
    }
  }

  lemma ShownEntry(g: Geometry, s: Sys, v: View, id: nat)
    requires Shows(g, s, v)
    ensures id in v.shown <==> InUse(g, s.mem, id)
    ensures Consistent(g, s.mem) && s.mapped == v.mapped
  {
    hide Steady, InUse, Consistent;
    SteadyMeta(g, s, v.pages);
  }

  lemma {:induction false} CheckEntriesDecides(g: Geometry, m: Mem, ids: seq<nat>)
    ensures CheckEntries(g, m, ids).Ok? <==> forall id :: id in ids ==> InUse(g, m, id)
  {
    hide BlockOf, SlotOf;
    if ids != [] {
      CheckEntriesDecides(g, m, ids[1..]);
      assert ids[0] in ids;
      assert forall x :: x in ids <==> x == ids[0] || x in ids[1..];
    }
  }

  lemma FreedInAnyOrder(v: View, ids: seq<nat>, ids': seq<nat>, v': View)
    requires FreedAll(v, ids, v') && forall x :: x in ids <==> x in ids'
    ensures FreedAll(v, ids', v')
  {
    hide Lands;
    assert ToSet(ids) == ToSet(ids');
  }

  /** `free_protected_bulk` succeeds exactly when the ids are distinct and all in use; then it
      removes exactly those ids and frees both backing pages of each. Otherwise it changes
      nothing. */
  lemma FreeProtectedBulkExact(g: Geometry, s: Sys, ids: seq<nat>, v: View) returns (v': View)
    requires Shows(g, s, v) && v.mapped && |s.mem.blocks| == |s.mem.dirs|
    requires s.mem.meta.generation + |ids| < U64_LIMIT
    ensures
      var (s', r) := FreeProtectedBulk(g, s, ids);
      && (r.Ok? <==> Distinct(ids) && forall id :: id in ids ==> id in v.shown)
      && Shows(g, s', v')
      && (r.Ok? ==> FreedAll(v, ids, v')
                    && AllocatedSet(s'.mem.meta) ==
                       AllocatedSet(s.mem.meta) - BackingOf(g, s.mem, Sort(ids, IdLeq)))
      && (r.Err? ==> s' == s && v' == v)
  {
    hide Shows, InUse, Sort, AdjacentEqual, Distinct, CheckEntries, FreeEach, AllocatedSet, BackingOf, FreedAll, Consistent;
    var sorted := Sort(ids, IdLeq);
    IdOrder();
    SortedTest(ids, IdLeq);
    SortSorts(ids, IdLeq);
    AdjacentDecides(sorted, IdLeq);
    CheckEntriesDecides(g, s.mem, sorted);
    forall id: nat
      ensures id in sorted <==> id in ids
      ensures id in v.shown <==> InUse(g, s.mem, id)
    {
      SortMembers(ids, IdLeq, id);
      ShownEntry(g, s, v, id);
    }
    v' := v;
    if Distinct(ids) && forall id :: id in ids ==> id in v.shown {
      NothingToFree(g, s, ids);
      v' := FreeEachExact(g, s, sorted, v);
      FreedInAnyOrder(v, sorted, ids, v');
    } else if ids == [] {
      DistinctNothing();
    }
  }

  lemma NothingToFree(g: Geometry, s: Sys, ids: seq<nat>)
    requires |s.mem.blocks| == |s.mem.dirs|
    ensures ids == [] ==> Sort(ids, IdLeq) == [] && FreeEach(g, s, []) == (s, Ok(()))
  {
  }

  lemma DistinctNothing()
    ensures Distinct<nat>([])
  {
  }

  // ── Allocating several ─────────────────────────────────────────────────────

  /** Each of the single allocations in turn may be made: the grown bitmap would still fit its
      page for the pages it needs where it stands. */
  ghost predicate RoomForEach(g: Geometry, s: Sys, env: Env, n: nat)
    decreases n
  {
    n == 0 ||
    (&& |s.mem.blocks| == |s.mem.dirs| && Capacity(g, s.mem.meta, Needed(g, s.mem))
     && (var (s1, r) := AllocProtected(g, Begin(s), env);
         r.Ok? ==> RoomForEach(g, s1, env, n - 1)))
  }

  /** Each id was the smallest unused one when it was allocated. */
  ghost predicate SmallestInTurn(shown: set<nat>, ids: seq<nat>)
    decreases |ids|
  {
    ids == [] || (SmallestUnused(shown, ids[0]) && SmallestInTurn(shown + {ids[0]}, ids[1..]))
  }

  lemma {:induction false} InTurnFresh(shown: set<nat>, ids: seq<nat>)
    requires SmallestInTurn(shown, ids)
    ensures Distinct(ids) && forall id :: id in ids ==> id !in shown
    decreases |ids|
  {
    if ids != [] {
      InTurnFresh(shown + {ids[0]}, ids[1..]);
    }
  }

  /** The view after these ids have been allocated, nothing committed to them yet. */
  ghost predicate AddedAll(v: View, ids: seq<nat>, v': View) {
    && SmallestInTurn(v.shown, ids) && v'.shown == v.shown + ToSet(ids)
    && Lands(v, ToSet(ids), v'.pages)
    && forall id :: id in ids ==> id in v'.pages && v'.pages[id] == None
  }

  lemma AddedNone(v: View)
    requires v.shown <= v.pages.Keys
    ensures AddedAll(v, [], v)
  {
  }

  lemma StaysPresent(v: View, ids: set<nat>, pages: Abs, id: nat)
    requires Lands(v, ids, pages) && id in v.shown && id in v.pages && id !in ids
    ensures id in pages && pages[id] == v.pages[id]
  {
  }

  lemma AddedOne(v: View, op: Op, id: nat, ids: seq<nat>, v1: View, v': View)
    requires op.OpAllocProtected? && AbsStep(v, op, Id(Ok(id)), v1) && AddedAll(v1, ids, v')
    ensures AddedAll(v, [id] + ids, v')
  {
    hide Lands, SmallestUnused;
    var all := [id] + ids;
    ToSetOf(all);
    ToSetOf(ids);
    assert all[1..] == ids;
    assert ToSet(all) == {id} + ToSet(ids);
    InTurnFresh(v1.shown, ids);
    LandsTwice(v, {id}, v1, ToSet(ids), v'.pages);
    StaysPresent(v1, ToSet(ids), v'.pages, id);
    assert v1.shown + ToSet(ids) == v.shown + ToSet(all);
  }

  lemma AllocEachUnfolds(g: Geometry, s: Sys, env: Env, n: nat)
    requires |s.mem.blocks| == |s.mem.dirs|
    ensures n == 0 ==> AllocEach(g, s, env, n).0 == s && AllocEach(g, s, env, n).1 == [] && AllocEach(g, s, env, n).2.Ok?
    ensures n > 0 ==>
              match AllocProtected(g, Begin(s), env)
              case (s1, Err(e)) =>
                AllocEach(g, s, env, n).0 == s1 && AllocEach(g, s, env, n).1 == [] && AllocEach(g, s, env, n).2 == Err(e)
              case (s1, Ok(id)) =>
                var (s2, ids, r2) := AllocEach(g, s1, env, n - 1);
                AllocEach(g, s, env, n) == (s2, [id] + ids, r2)
  {
    hide AllocProtected;
  }

  lemma RoomUnfolds(g: Geometry, s: Sys, env: Env, n: nat)
    requires RoomForEach(g, s, env, n) && n > 0
    ensures |s.mem.blocks| == |s.mem.dirs| && Capacity(g, s.mem.meta, Needed(g, s.mem))
    ensures var (s1, r) := AllocProtected(g, Begin(s), env); r.Ok? ==> RoomForEach(g, s1, env, n - 1)
  {
    hide AllocProtected, Capacity, Needed;
  }

  /** One of the single allocations. */
  lemma AllocShown(g: Geometry, s: Sys, env: Env, v: View) returns (v1: View)
    requires Shows(g, s, v) && |s.mem.blocks| == |s.mem.dirs| && Capacity(g, s.mem.meta, Needed(g, s.mem))
    requires s.mem.meta.generation + 1 < U64_LIMIT
    ensures
      var (s1, r) := AllocProtected(g, Begin(s), env);
      && Shows(g, s1, v1) && AbsStep(v, OpAllocProtected(env), Id(r), v1)
      && s1.mem.meta.generation <= s.mem.meta.generation + 1
      && (r.Ok? ==> v1.mapped) && (r.Err? ==> v1 == v.(mapped := v1.mapped))
  {
    hide Shows, AllocProtected, Capacity, SmallestUnused, TraceOk, Lands, Needed;
    BeginShows(g, s, v);
    GenerationStep(g, Begin(s), env);
    v1 := AllocProtectedShows(g, Begin(s), env, v);
  }

  /** The view reached by AllocEach, whether it stops early or not. */
  lemma {:induction false} AllocEachSafe(g: Geometry, s: Sys, env: Env, n: nat, v: View) returns (v': View)
    requires Shows(g, s, v) && |s.mem.blocks| == |s.mem.dirs| && RoomForEach(g, s, env, n)
    requires s.mem.meta.generation + n < U64_LIMIT
    ensures
      var (s', ids, r) := AllocEach(g, s, env, n);
      && Shows(g, s', v') && AddedAll(v, ids, v')
      && |ids| <= n && (r.Ok? ==> |ids| == n && (n > 0 ==> v'.mapped))
      && s'.mem.meta.generation <= s.mem.meta.generation + n
      && (n == 0 ==> v' == v)
    decreases n
  {
    hide *;
    BeginFrame(s);
    ShowsReady(g, s, v);
    AddedNone(v);
    AllocEachUnfolds(g, s, env, n);
    v' := v;
    if n > 0 {
      RoomUnfolds(g, s, env, n);
      var v1 := AllocShown(g, s, env, v);
      var (s1, r) := AllocProtected(g, Begin(s), env);
      match r
      case Ok(id) =>
        ShowsReady(g, s1, v1);
        v' := AllocEachSafe(g, s1, env, n - 1, v1);
        AddedOne(v, OpAllocProtected(env), id, AllocEach(g, s1, env, n - 1).1, v1, v');
      case Err(_) =>
        v' := v1;
        AddedElsewhere(v, [], v, v1);
    }
  }

  lemma AddedElsewhere(v: View, ids: seq<nat>, v1: View, v': View)
    requires AddedAll(v, ids, v1) && v' == v1.(mapped := v'.mapped)
    ensures AddedAll(v, ids, v')
  {
  }

  /** A single allocation counts the generation up once at most. */
  lemma GenerationStep(g: Geometry, s: Sys, env: Env)
    requires |s.mem.blocks| == |s.mem.dirs|
    ensures AllocProtected(g, s, env).0.mem.meta.generation <= s.mem.meta.generation + 1
  {
    hide AllocRaws, Commit, CommitDir, Rewritten, AppendBlock, NewEntry, Epp, FirstFreeEntry, AllocInBlock, AllocNewBlock,
         AllocProtected;
    AllocProtectedCases(g, s, env);
    RawsGeneration(g, s, env, 2);
    RawsGeneration(g, s, env, 4);
    CommitFrame(g, AllocRaws(g, s, env, 2).0);
    CommitFrame(g, AllocRaws(g, s, env, 4).0);
    var b := FirstOpenBlock(s.mem.dirs);
    if b < |s.mem.dirs| {
      AllocInBlockSteps(g, s, env, b);
    } else {
      AllocNewBlockSteps(g, s, env);
      var (s1, ids, r) := AllocRaws(g, s, env, 4);
      if r.Ok? {
        var s2 := Commit(g, s1).0;
        AppendFrame(g, s2.mem, ids[0], ids[1], NewEntry(g, s2.disk, ids[2], ids[3]));
      }
    }
  }

  // ── Giving back what was obtained ──────────────────────────────────────────

  /** The view after the rollback, which without a mapping only hides the pages. */
  ghost predicate RolledBack(v: View, ids: seq<nat>, v': View) {
    && v'.mapped == v.mapped && v'.shown == v.shown - ToSet(ids)
    && Lands(v, ToSet(ids), v'.pages)
    && (v.mapped && Distinct(ids) && (forall id :: id in ids ==> id in v.shown) ==>
          forall id :: id in ids ==> id !in v'.pages)
    && (!v.mapped ==> v'.pages == v.pages)
  }

  lemma FreeLands(v: View, id: nat, r: Reply, v1: View)
    requires AbsStep(v, OpFreeProtected(id), r, v1) && v.shown <= v.pages.Keys
    ensures Lands(v, {id}, v1.pages) && (v.mapped && id in v.shown ==> id !in v1.pages)
    ensures !v.mapped ==> v1.pages == v.pages
  {
  }

  lemma RolledOne(v: View, ids: seq<nat>, r: Reply, v1: View, v': View)
    requires ids != [] && AbsStep(v, OpFreeProtected(ids[0]), r, v1) && v.shown <= v.pages.Keys
    requires RolledBack(v1, ids[1..], v')
    ensures RolledBack(v, ids, v')
  {
    hide Lands;
    var id, rest := ids[0], ids[1..];
    FreeLands(v, id, r, v1);
    ToSetOf(ids);
    ToSetOf(rest);
    assert ToSet(ids) == {id} + ToSet(rest);
    LandsTwice(v, {id}, v1, ToSet(rest), v'.pages);
    if v.mapped && Distinct(ids) && forall x :: x in ids ==> x in v.shown {
      assert id in ids && id !in rest && Distinct(rest);
      assert forall x :: x in rest ==> x in ids && x in v1.shown;
      GoneStaysGone(v1, ToSet(rest), v'.pages, id);
    }
  }

  lemma {:induction false} FreeAnywayShows(g: Geometry, s: Sys, ids: seq<nat>, v: View) returns (v': View)
    requires Shows(g, s, v) && |s.mem.blocks| == |s.mem.dirs|
    requires s.mem.meta.generation + |ids| < U64_LIMIT
    ensures Shows(g, FreeAnyway(g, s, ids), v') && RolledBack(v, ids, v')
    decreases |ids|
  {
    hide Shows, TraceOk, FreeProtected, RolledBack, AbsStep;
    ShowsReady(g, s, v);
    if ids == [] {
      v' := v;
      RolledNone(v);
    } else {
      var t := Begin(s);
      BeginShows(g, s, v);
      var v1 := FreeProtectedShows(g, t, ids[0], v);
      FreeGeneration(g, t, ids[0]);
      v' := FreeAnywayShows(g, FreeProtected(g, t, ids[0]).0, ids[1..], v1);
      RolledOne(v, ids, Unit(FreeProtected(g, t, ids[0]).1), v1, v');
    }
  }

  lemma RolledNone(v: View)
    requires v.shown <= v.pages.Keys
    ensures RolledBack(v, [], v)
  {
  }

  lemma FreeGeneration(g: Geometry, s: Sys, id: nat)
    requires |s.mem.blocks| == |s.mem.dirs|
    ensures FreeProtected(g, s, id).0.mem.meta.generation <= s.mem.meta.generation + 1
  {
    hide FreeProtected, Commit, CommitDir, Unmark, Rewritten, BlockOf, SlotOf;
    if InUse(g, s.mem, id) {
      InUseHasEntry(g, s.mem, id);
      FreeProtectedSteps(g, s, id);
      var b, slot := BlockOf(g, id), SlotOf(g, id);
      var e := s.mem.dirs[b].entries[slot];
      var m := Rewritten(s.mem, b, slot, e.(inUse := false));
      if s.mapped {
        var s1 := CommitDir(g, s.(mem := m), b).0;
        UnmarkGeneration(s1.mem.meta, e.pageA);
        UnmarkGeneration(Unmark(s1.mem.meta, e.pageA), e.pageB);
        CommitFrame(g, WithMeta(s1, Unmark(Unmark(s1.mem.meta, e.pageA), e.pageB)));
      }
    } else {
      FreeNotInUse(g, s, id);
    }
  }

  /** `alloc_protected_bulk` is the single calls and, when one of them fails, the rollback: the view
      in between and the view after it. */
  lemma AllocProtectedBulkViews(g: Geometry, s: Sys, env: Env, n: nat, v: View) returns (v1: View, v': View)
    requires Shows(g, s, v) && |s.mem.blocks| == |s.mem.dirs| && RoomForEach(g, s, env, n)
    requires s.mem.meta.generation + 2 * n < U64_LIMIT
    ensures
      var (s1, ids, q) := AllocEach(g, s, env, n);
      var (s', r) := AllocProtectedBulk(g, s, env, n);
      && Shows(g, s1, v1) && AddedAll(v, ids, v1) && Shows(g, s', v')
      && (q.Ok? ==> r == Ok(ids) && v' == v1)
      && (q.Err? ==> r == Err(q.error) && s' == FreeAnyway(g, s1, ids) && RolledBack(v1, ids, v'))
  {
    hide Shows, AllocEach, FreeAnyway, AddedAll, RolledBack, RoomForEach, Lands;
    v1 := AllocEachSafe(g, s, env, n, v);
    v' := v1;
    var (s1, ids, q) := AllocEach(g, s, env, n);
    if q.Err? {
      v' := FreeAnywayShows(g, s1, ids, v1);
    }
  }

  // ── Four pages a call are enough ───────────────────────────────────────────

  lemma {:induction false} RawsLeaveCapacity(g: Geometry, s: Sys, env: Env, n: nat, all: nat)
    requires Consistent(g, s.mem) && n <= all && Capacity(g, s.mem.meta, all)
    ensures
      var (s', ids, r) := AllocRaws(g, s, env, n);
      r.Ok? ==> Capacity(g, s'.mem.meta, all - n)
    decreases n
  {
    hide Consistent, Capacity, AllocRaw, TookPage, AllocatedSet, GrownTotal;
    if n > 0 {
      RawTakesSmallest(g, s, env, all);
      var (s1, r) := AllocRaw(g, s, env);
      if r.Ok? {
        RawsLeaveCapacity(g, s1, env, n - 1, all - 1);
      }
    }
  }

  lemma CapacityOfBits(g: Geometry, m: Meta, m': Meta, n: nat)
    requires Capacity(g, m, n) && m'.total == m.total && m'.freeCount == m.freeCount
    ensures Capacity(g, m', n)
  {
  }

  lemma AllocProtectedCapacity(g: Geometry, s: Sys, env: Env, all: nat)
    requires Consistent(g, s.mem) && 4 <= all && Capacity(g, s.mem.meta, all)
    requires |s.mem.blocks| == |s.mem.dirs|
    ensures
      var (s', r) := AllocProtected(g, s, env);
      r.Ok? ==> Capacity(g, s'.mem.meta, all - 4)
  {
    hide AllocProtected, AllocInBlock, AllocNewBlock, AllocRaws, Commit, CommitDir, Rewritten, AppendBlock, NewEntry,
         FirstFreeEntry, Consistent, Capacity, Epp, IdAt;
    AllocProtectedCases(g, s, env);
    var b := FirstOpenBlock(s.mem.dirs);
    if b < |s.mem.dirs| {
      RawsLeaveCapacity(g, s, env, 2, all);
      TakenCapacity(g, AllocRaws(g, s, env, 2).0, all, 2);
      AllocInBlockSteps(g, s, env, b);
    } else if |s.mem.blocks| < MaxDirBlocks(g.pageSize) {
      RawsLeaveCapacity(g, s, env, 4, all);
      TakenCapacity(g, AllocRaws(g, s, env, 4).0, all, 4);
      AllocNewBlockSteps(g, s, env);
      var (s1, ids, r) := AllocRaws(g, s, env, 4);
      if r.Ok? {
        var s2 := Commit(g, s1).0;
        AppendFrame(g, s2.mem, ids[0], ids[1], NewEntry(g, s2.disk, ids[2], ids[3]));
      }
    }
  }

  lemma TakenCapacity(g: Geometry, s: Sys, all: nat, n: nat)
    requires 4 <= all && n <= 4
    ensures Capacity(g, s.mem.meta, all - n) ==> Capacity(g, Commit(g, s).0.mem.meta, all - 4)
  {
    hide Capacity, Commit;
    CommitFrame(g, s);
    if Capacity(g, s.mem.meta, all - n) {
      CapacityOfBits(g, s.mem.meta, Commit(g, s).0.mem.meta, all - n);
      CapacityLess(g, Commit(g, s).0.mem.meta, all - n, all - 4);
    }
  }

  lemma RoomFolds(g: Geometry, s: Sys, env: Env, n: nat)
    requires |s.mem.blocks| == |s.mem.dirs| && (n > 0 ==> Capacity(g, s.mem.meta, Needed(g, s.mem)))
    requires n > 0 ==>
               var (s1, r) := AllocProtected(g, Begin(s), env);
               r.Ok? ==> RoomForEach(g, s1, env, n - 1)
    ensures RoomForEach(g, s, env, n)
  {
    hide AllocProtected, Capacity, Needed;
  }

  /** Room for four pages a call is always enough. */
  lemma {:induction false} FourEachIsRoom(g: Geometry, s: Sys, env: Env, n: nat, v: View)
    requires Shows(g, s, v) && Capacity(g, s.mem.meta, 4 * n) && s.mem.meta.generation + n < U64_LIMIT
    ensures RoomForEach(g, s, env, n)
    decreases n
  {
    hide *;
    BeginFrame(s);
    ShowsReady(g, s, v);
    if n > 0 {
      ShownEntry(g, s, v, 0);
      FourAtMost(g, s.mem);
      CapacityLess(g, s.mem.meta, 4 * n, Needed(g, s.mem));
      AllocProtectedCapacity(g, Begin(s), env, 4 * n);
      var v1 := AllocShown(g, s, env, v);
      if AllocProtected(g, Begin(s), env).1.Ok? {
        FourEachIsRoom(g, AllocProtected(g, Begin(s), env).0, env, n - 1, v1);
      }
    }
    RoomFolds(g, s, env, n);
  }

  lemma FourAtMost(g: Geometry, m: Mem)
    ensures Needed(g, m) <= 4
  {
    hide FirstOpenBlock;
  }
}
