/** What every call answers when it refuses, and exactly when. */
module Refusals {
  import opened Bytes
  import opened Results
  import opened Metadata
  import opened Layout
  import opened Recovery
  import opened Sorting
  import opened PagerSpec
  import opened Ownership
  import opened Safety
  import opened DirSafety
  import opened RawAllocation
  import opened Entries
  import opened Operations
  import opened Bulk
  import opened Runs
  import opened Accounting
  import opened ProtectedBulk
  import opened LostMapping
  import opened Contents

  // ── Regular pages ──────────────────────────────────────────────────────────

  /** `alloc` fails in two ways: no page is free and the file cannot be doubled, or one is free and
      there is no mapping to commit through. It hands out the smallest page that is not in use. */
  lemma AllocAnswers(g: Geometry, s: Sys, env: Env)
    requires Exact(s.mem.meta)
    ensures
      var r := Alloc(g, s, env).1;
      var m := s.mem.meta;
      && (r == Err(Io) <==> m.freeCount == 0 && !env(2 * m.total).Grown?)
      && (r == Err(Unavailable) <==> m.freeCount > 0 && !s.mapped)
      && (r.Ok? <==> if m.freeCount > 0 then s.mapped else env(2 * m.total).Grown?)
      && (r.Ok? ==> r.value !in AllocatedSet(m) && forall x: nat :: x < r.value ==> x in AllocatedSet(m))
  {
    hide Exact, AllocRaw, Commit, FreeSlot, GrowTo, TookPage, AllocatedSet;
    RawOutcome(g, s, env);
    CommitFrame(g, AllocRaw(g, s, env).0);
    var m := s.mem.meta;
    var larger := GrowTo(m, 2 * m.total);
    RoomAfterGrowth(m);
    SmallestFree(m);
    SmallestFree(larger);
  }

  lemma SmallestFree(m: Meta)
    requires Exact(m)
    ensures FreeSlot(m).Some? ==>
              var id := FreeSlot(m).value;
              id !in AllocatedSet(m) && forall x: nat :: x < id ==> x in AllocatedSet(m)
  {
    hide FreeSlot, BitAt;
    FreeSlotIsSmallest(m);
    forall x: nat
      ensures x in AllocatedSet(m) <==> Allocated(m, x)
    {
      InAllocatedSet(m, x);
    }
  }

  lemma AllocBulkAnswers(g: Geometry, s: Sys, env: Env, n: nat)
    requires Exact(s.mem.meta)
    ensures s.mem.meta.total > 0
    ensures
      var r := AllocBulk(g, s, env, n).1;
      var m := s.mem.meta;
      && (r == Err(Io) <==> !Reachable(m, env, n))
      && (r == Err(Unavailable) <==> 0 < n <= m.freeCount && !s.mapped)
      && (r.Ok? <==> Reachable(m, env, n) && (0 < n <= m.freeCount ==> s.mapped))
  {
    hide Exact, AllocRaws, Commit, UnmarkAll, TookPages, Reachable, Remapped;
    RawsOutcome(g, s, env, n);
    CommitFrame(g, AllocRaws(g, s, env, n).0);
  }

  /** Reading a regular page, and storing one. */
  lemma AccessAnswers(s: Sys, id: nat, page: Page)
    ensures
      var read, written := ReadRegular(s, id), WriteRegular(s, id, page).1;
      && (read == Err(ReservedPage) <==> id < 3) && (written == Err(ReservedPage) <==> id < 3)
      && (read == Err(OutOfBounds) <==> id >= 3 && id >= s.mem.meta.total)
      && (written == Err(OutOfBounds) <==> id >= 3 && id >= s.mem.meta.total)
      && (read == Err(Unavailable) <==> 3 <= id < s.mem.meta.total && !s.mapped)
      && (written == Err(Unavailable) <==> 3 <= id < s.mem.meta.total && !s.mapped)
      && (read.Ok? <==> written.Ok?)
  {
  }

  /** The first id in increasing order that may not be freed decides. */
  lemma {:induction false} CheckAnswers(m: Meta, ids: seq<nat>)
    requires Exact(m) && Sorted(ids, IdLeq)
    ensures
      var r := CheckIds(m, ids);
      var used := AllocatedSet(m);
      && (r == Err(ReservedPage) <==> exists x :: x in ids && x < 3)
      && (r == Err(DoubleFree) <==>
            (forall x :: x in ids ==> x >= 3) && exists x :: x in ids && x < m.total && x !in used)
      && (r == Err(OutOfBounds) <==>
            (forall x :: x in ids ==> x >= 3 && (x < m.total ==> x in used)) && exists x :: x in ids && x >= m.total)
      && (r.Ok? <==> forall x :: x in ids ==> x >= 3 && x in used)
  {
    hide AllocatedSet;
    if ids != [] {
      InAllocatedSet(m, ids[0]);
      assert ids[0] in ids;
      assert forall x :: x in ids <==> x == ids[0] || x in ids[1..];
      assert forall x :: x in ids[1..] ==> ids[0] <= x;
      UsedInside(m);
      CheckAnswers(m, ids[1..]);
    }
  }

  lemma UsedInside(m: Meta)
    ensures forall x :: x in AllocatedSet(m) ==> x < m.total
  {
  }

  /** `free_bulk`: first a repeated id, then a reserved page, then a page not in use, then a page
      beyond the file. */
  lemma FreeBulkAnswers(g: Geometry, s: Sys, ids: seq<nat>)
    requires Exact(s.mem.meta)
    ensures
      var r := FreeBulk(g, s, ids).1;
      var m, used := s.mem.meta, AllocatedSet(s.mem.meta);
      if ids == [] then r.Ok?
      else if !Distinct(ids) then r == Err(DoubleFree)
      else if exists x :: x in ids && x < 3 then r == Err(ReservedPage)
      else if exists x :: x in ids && x < m.total && x !in used then r == Err(DoubleFree)
      else if exists x :: x in ids && x >= m.total then r == Err(OutOfBounds)
      else if s.mapped then r.Ok? else r == Err(Unavailable)
  {
    hide AllocatedSet, Commit, UnmarkAll, Sort, AdjacentEqual, CheckIds, Distinct;
    var sorted := Sort(ids, IdLeq);
    IdOrder();
    SortedTest(ids, IdLeq);
    SortSorts(ids, IdLeq);
    forall x: nat
      ensures x in sorted <==> x in ids
    {
      SortMembers(ids, IdLeq, x);
    }
    CheckAnswers(s.mem.meta, sorted);
    UsedInside(s.mem.meta);
    CommitFrame(g, WithMeta(s, UnmarkAll(s.mem.meta, sorted)));
  }

  // ── Protected pages ────────────────────────────────────────────────────────

  /** The ids the directory pages have slots for. */
  function Slots(g: Geometry, m: Mem): nat {
    |m.dirs| * Epp(g)
  }

  lemma SlotsExact(g: Geometry, m: Mem, id: nat)
    requires Consistent(g, m)
    ensures HasEntry(m, BlockOf(g, id), SlotOf(g, id)) <==> id < Slots(g, m)
    ensures InUse(g, m, id) ==> id < Slots(g, m)
  {
    hide Owned, Exact, MetaFits, Doubled;
    DivIdentity(id, Epp(g));
    var b := BlockOf(g, id);
    if b < |m.dirs| {
      assert DirShape(g, m.dirs[b]);
      NextMultiple(b, |m.dirs|, Epp(g));
    } else if b > |m.dirs| {
      NextMultiple(|m.dirs|, b, Epp(g));
    }
  }

  /** `free_protected` tells an id beyond the directory from one that is not in use. */
  lemma FreeProtectedAnswers(g: Geometry, s: Sys, id: nat)
    requires Consistent(g, s.mem) && |s.mem.blocks| == |s.mem.dirs|
    ensures
      var r := FreeProtected(g, s, id).1;
      var used := InUse(g, s.mem, id);
      && (r == Err(OutOfBounds) <==> id >= Slots(g, s.mem))
      && (r == Err(DoubleFree) <==> id < Slots(g, s.mem) && !used)
      && (r == Err(Unavailable) <==> used && !s.mapped)
      && (r.Ok? <==> used && s.mapped)
  {
    hide FreeProtected, Commit, CommitDir, Unmark, Rewritten, BlockOf, SlotOf, Slots, Consistent;
    SlotsExact(g, s.mem, id);
    if InUse(g, s.mem, id) {
      InUseHasEntry(g, s.mem, id);
      FreeProtectedSteps(g, s, id);
      if s.mapped {
        var b, slot := BlockOf(g, id), SlotOf(g, id);
        var e := s.mem.dirs[b].entries[slot];
        var s1 := CommitDir(g, s.(mem := Rewritten(s.mem, b, slot, e.(inUse := false))), b).0;
        CommitFrame(g, WithMeta(s1, Unmark(Unmark(s1.mem.meta, e.pageA), e.pageB)));
      }
    } else {
      UnusedAnswer(g, s, id);
    }
  }

  lemma UnusedAnswer(g: Geometry, s: Sys, id: nat)
    requires |s.mem.blocks| == |s.mem.dirs| && !InUse(g, s.mem, id)
    ensures
      FreeProtected(g, s, id).1 ==
      Err(if HasEntry(s.mem, BlockOf(g, id), SlotOf(g, id)) then DoubleFree else OutOfBounds)
  {
    hide Commit, CommitDir, BlockOf, SlotOf;
  }

  /** Reading a protected page, staging bytes for it, and writing it. */
  lemma ProtectedAccessAnswers(g: Geometry, s: Sys, id: nat, page: Page)
    requires |s.mem.blocks| == |s.mem.dirs|
    ensures
      var used := InUse(g, s.mem, id);
      var read, staged, written := ReadProtected(g, s, id), StageWrite(g, s, id, page).1, WriteProtected(g, s, id, page).1;
      && (read == Err(OutOfBounds) <==> !used) && (staged == Err(OutOfBounds) <==> !used)
      && (written == Err(OutOfBounds) <==> !used)
      && (read == Err(Unavailable) <==> used && !s.mapped) && (staged == Err(Unavailable) <==> used && !s.mapped)
      && (written == Err(Unavailable) <==> used && !s.mapped)
      && (read.Ok? <==> used && s.mapped) && (written.Ok? <==> used && s.mapped)
  {
    hide CommitWrite, EntryOf;
    WriteProtectedCases(g, s, id, page);
    if InUse(g, s.mem, id) && s.mapped {
      StageFrame(g, s, id, page);
      CommitWriteSteps(g, StageWrite(g, s, id, page).0, id);
    }
  }

  /** Slot 0 names the first copy: that one is read and the other one staged while it is active, and
      the other way round when it is not. */
  lemma CopiesAccessed(g: Geometry, s: Sys, id: nat, page: Page, a: Abs)
    requires Steady(g, s, a) && InUse(g, s.mem, id) && s.mapped
    ensures
      var e := EntryOf(g, s.mem, id);
      var first, second := MappedPage(s.disk, e.pageA), MappedPage(s.disk, e.pageB);
      var s' := StageWrite(g, s, id, page).0;
      && ReadProtected(g, s, id) == Ok(if e.activeSlot == 0 then first else second)
      && MappedPage(s'.disk, e.pageA) == (if e.activeSlot == 0 then first else page)
      && MappedPage(s'.disk, e.pageB) == if e.activeSlot == 0 then page else second
  {
    hide Steady, Consistent, BlockOf, SlotOf;
    EntryPlaced(g, s, id, a);
  }

  lemma EntryPlaced(g: Geometry, s: Sys, id: nat, a: Abs)
    requires Steady(g, s, a) && InUse(g, s.mem, id)
    ensures
      var e := EntryOf(g, s.mem, id);
      && e.pageA != e.pageB && e.pageA < |s.disk.mapped| && e.pageB < |s.disk.mapped| && e.activeSlot <= 1
  {
    hide Steady, Exact, MetaFits, Doubled, Owned, BlockOf, SlotOf;
    SteadyMeta(g, s, a);
    SteadyParts(g, s, a);
    var b, slot := BlockOf(g, id), SlotOf(g, id);
    CopiesDistinct(s.mem, b, slot);
    EntryPagesOwned(s.mem, b, slot);
    assert DirShape(g, s.mem.dirs[b]);
  }

  lemma {:induction false} CheckEntriesAnswers(g: Geometry, m: Mem, ids: seq<nat>)
    requires Consistent(g, m) && Sorted(ids, IdLeq)
    ensures
      var r := CheckEntries(g, m, ids);
      && (r == Err(DoubleFree) <==> exists x :: x in ids && x < Slots(g, m) && !InUse(g, m, x))
      && (r == Err(OutOfBounds) <==>
            (forall x :: x in ids && x < Slots(g, m) ==> InUse(g, m, x)) && exists x :: x in ids && x >= Slots(g, m))
      && (r.Ok? <==> forall x :: x in ids ==> InUse(g, m, x))
  {
    hide Consistent, InUse, Slots, BlockOf, SlotOf;
    if ids != [] {
      assert ids[0] in ids;
      assert forall x :: x in ids <==> x == ids[0] || x in ids[1..];
      assert forall x :: x in ids[1..] ==> ids[0] <= x;
      forall x: nat
        ensures InUse(g, m, x) ==> x < Slots(g, m)
      {
        SlotsExact(g, m, x);
      }
      SlotsExact(g, m, ids[0]);
      CheckEntriesAnswers(g, m, ids[1..]);
    }
  }

  /** `free_protected_bulk`: first a repeated id, then one that is not in use, then one beyond the
      directory; without a mapping the first free fails. */
  lemma FreeProtectedBulkAnswers(g: Geometry, s: Sys, ids: seq<nat>)
    requires Consistent(g, s.mem) && |s.mem.blocks| == |s.mem.dirs|
    ensures
      var r := FreeProtectedBulk(g, s, ids).1;
      if ids == [] then r.Ok?
      else if !Distinct(ids) then r == Err(DoubleFree)
      else if exists x :: x in ids && x < Slots(g, s.mem) && !InUse(g, s.mem, x) then r == Err(DoubleFree)
      else if exists x :: x in ids && x >= Slots(g, s.mem) then r == Err(OutOfBounds)
      else !s.mapped ==> r == Err(Unavailable)
  {
    hide Consistent, InUse, Slots, Sort, AdjacentEqual, CheckEntries, FreeEach, Distinct;
    var sorted := Sort(ids, IdLeq);
    IdOrder();
    SortedTest(ids, IdLeq);
    SortSorts(ids, IdLeq);
    forall x: nat
      ensures x in sorted <==> x in ids
    {
      SortMembers(ids, IdLeq, x);
    }
    CheckEntriesAnswers(g, s.mem, sorted);
    if sorted != [] && !s.mapped && forall x :: x in ids ==> InUse(g, s.mem, x) {
      FirstUnavailable(g, s, sorted);
    }
  }

  lemma FirstUnavailable(g: Geometry, s: Sys, ids: seq<nat>)
    requires Consistent(g, s.mem) && |s.mem.blocks| == |s.mem.dirs| && !s.mapped && ids != [] && InUse(g, s.mem, ids[0])
    ensures FreeEach(g, s, ids).1 == Err(Unavailable)
  {
    hide Consistent, InUse, Slots, FreeProtected;
    FreeProtectedAnswers(g, Begin(s), ids[0]);
  }

  // ── Runs ───────────────────────────────────────────────────────────────────

  /** Freeing in terms of what the caller was given and has given back: `DoubleFree` is the answer
      for every page inside the file that is not in the caller's hands. */
  lemma FreeInRuns(g: Geometry, ss: seq<Sys>, es: seq<Event>, id: nat)
    requires IsRun(g, ss, es) && NothingHalfway(ss, es) && id !in Referenced(ss[|es|].mem)
    ensures
      var s := ss[|es|];
      var r := Free(g, Begin(s), id).1;
      && (r == Err(ReservedPage) <==> id < 3)
      && (r == Err(OutOfBounds) <==> id >= 3 && id >= s.mem.meta.total)
      && (r == Err(DoubleFree) <==> 3 <= id < s.mem.meta.total && id !in LivePages(es))
      && (r == Err(Unavailable) <==> id in LivePages(es) && !s.mapped)
      && (r.Ok? <==> id in LivePages(es) && s.mapped)
  {
    hide IsRun, Free, AllocatedSet, Referenced, Steady, LivePages, NothingHalfway;
    RunLength(g, ss, es);
    var a := SteadyAt(g, ss, es, |es|);
    var s := ss[|es|];
    SteadyMeta(g, s, a);
    LiveIsRegular(g, ss, es);
    FreeAnswers(g, Begin(s), id);
    UsedInside(s.mem.meta);
  }
}
