/** Raw page allocation and growth: the in-memory half of every allocating call. */
module RawAllocation {
  import opened Bytes
  import opened Results
  import opened Metadata
  import opened Layout
  import opened Disks
  import opened Recovery
  import opened Sorting
  import opened PagerSpec
  import opened Ownership
  import opened Safety
  import opened DirSafety

  /** Between calls, mapped or not: the durable state survives crashes with contents a, memory
      agrees with it, and stays consistent with it whichever of the two bitmaps is used. */
  ghost predicate Steady(g: Geometry, s: Sys, a: Abs) {
    Durable(g, s, a) && Agrees(s) && Consistent(g, Held(s))
  }

  ghost predicate Ready(g: Geometry, s: Sys, a: Abs) {
    Steady(g, s, a) && s.mapped
  }

  lemma ReadySteady(g: Geometry, s: Sys, a: Abs)
    requires Ready(g, s, a)
    ensures Steady(g, s, a)
  {
  }

  /** The page count after the doublings that make n pages free. */
  function GrownTotal(free: nat, total: nat, n: nat): (t: nat)
    requires total > 0
    ensures t >= total
    decreases if n <= free then 0 else n - free
  {
    if n <= free then total else GrownTotal(free + total, 2 * total, n)
  }

  /** The bitmap still fits its page after allocating n pages. */
  ghost predicate Capacity(g: Geometry, m: Meta, n: nat) {
    m.total > 0 && Room(g, GrownTotal(m.freeCount, m.total, n))
  }

  lemma RoomMonotone(g: Geometry, t: nat, t': nat)
    requires t <= t' && Room(g, t')
    ensures Room(g, t) && t < U64_LIMIT
  {
  }

  lemma {:induction false} GrownShift(free: nat, total: nat, n: nat)
    requires total > 0 && free > 0 && n > 0
    ensures GrownTotal(free - 1, total, n - 1) == GrownTotal(free, total, n)
    decreases if n <= free then 0 else n - free
  {
    if n > free {
      GrownShift(free + total, 2 * total, n);
    }
  }

  lemma CapacityTake(g: Geometry, m: Meta, m': Meta, n: nat)
    requires Capacity(g, m, n) && n > 0
    requires m'.freeCount + 1 == m.freeCount && m'.total == m.total
    ensures Capacity(g, m', n - 1)
  {
    GrownShift(m.freeCount, m.total, n);
  }

  lemma CapacityGrow(g: Geometry, m: Meta, m': Meta, n: nat)
    requires Capacity(g, m, n) && n > 0 && m.freeCount == 0
    requires m'.freeCount == m.total && m'.total == 2 * m.total
    ensures Capacity(g, m', n) && Room(g, 2 * m.total)
  {
    RoomMonotone(g, 2 * m.total, GrownTotal(m.total, 2 * m.total, n));
  }

  // ── The bitmap under an unchanged directory ────────────────────────────────

  lemma ReMetaConsistent(g: Geometry, m: Mem, meta: Meta)
    requires Consistent(g, m) && Exact(meta) && MetaFits(g, meta) && Doubled(meta.total)
    requires meta.generation == m.meta.generation
    requires forall x: nat :: x in Referenced(m) ==> Allocated(meta, x)
    ensures Consistent(g, m.(meta := meta))
  {
    hide Exact, MetaFits, Doubled, DirShape, Referenced, Allocated;
    var m' := m.(meta := meta);
    SameDirectory(m, m');
  }

  lemma SameDirectory(m: Mem, m': Mem)
    requires m.blocks == m'.blocks && m.dirs == m'.dirs
    ensures Referenced(m) == Referenced(m')
  {
    hide Sum, RefBags, DirBags;
  }

  lemma MarkConsistent(g: Geometry, m: Mem, id: nat)
    requires Consistent(g, m) && id < m.meta.total && !Allocated(m.meta, id)
    ensures Consistent(g, m.(meta := Mark(m.meta, id)))
    ensures FreshPage(m.(meta := Mark(m.meta, id)), id)
  {
    hide DirShape, Doubled, Referenced, Mark, BitAt;
    var meta := Mark(m.meta, id);
    MarkAllocates(m.meta, id);
    assert id in AllocatedSet(meta);
    assert id !in Range(FIRST_DATA_PAGE);
    forall x: nat | x in Referenced(m)
      ensures Allocated(meta, x)
    {
      assert x in AllocatedSet(m.meta) && x in AllocatedSet(meta);
    }
    ReMetaConsistent(g, m, meta);
    SameDirectory(m, m.(meta := meta));
  }

  lemma UnmarkConsistent(g: Geometry, m: Mem, id: nat)
    requires Consistent(g, m) && FreshPage(m, id)
    ensures Consistent(g, m.(meta := Unmark(m.meta, id)))
    ensures AllocatedSet(Unmark(m.meta, id)) == AllocatedSet(m.meta) - {id}
  {
    hide DirShape, Doubled, Referenced, Unmark, BitAt;
    var meta := Unmark(m.meta, id);
    UnmarkFrees(m.meta, id);
    assert id in AllocatedSet(m.meta);
    forall x: nat | x in Referenced(m)
      ensures Allocated(meta, x)
    {
      assert x in AllocatedSet(m.meta) && x in AllocatedSet(meta);
    }
    assert meta.freeCount <= meta.total;
    ReMetaConsistent(g, m, meta);
  }

  lemma DoubledAgain(total: nat)
    requires Doubled(total)
    ensures Doubled(2 * total)
  {
    var n: nat :| total == 4 * Pow2(n);
    assert 2 * total == 4 * Pow2(n + 1);
  }

  lemma GrowConsistent(g: Geometry, m: Mem)
    requires Consistent(g, m) && Room(g, 2 * m.meta.total)
    ensures Consistent(g, m.(meta := GrowTo(m.meta, 2 * m.meta.total)))
    ensures AllocatedSet(GrowTo(m.meta, 2 * m.meta.total)) == AllocatedSet(m.meta)
    ensures GrowTo(m.meta, 2 * m.meta.total).freeCount == m.meta.freeCount + m.meta.total
  {
    hide DirShape, Doubled, Referenced, BitAt;
    var total := 2 * m.meta.total;
    var meta := GrowTo(m.meta, total);
    GrowKeepsAllocated(m.meta, total);
    DoubledAgain(m.meta.total);
    RoomMonotone(g, total, total);
    forall x: nat | x in Referenced(m)
      ensures Allocated(meta, x)
    {
      assert x in AllocatedSet(m.meta) && x in AllocatedSet(meta);
    }
    ReMetaConsistent(g, m, meta);
  }

  // ── Single disk steps ──────────────────────────────────────────────────────

  /** One disk step the durable state survives. */
  lemma StepSafe(g: Geometry, s: Sys, d: Disk, a: Abs, x: Abs, y: Abs)
    requires Settled(d) && Sized(g, d) && Survives(g, s.dur, d, d.durable[0], a)
    requires TraceOk(g, s.trace, x, y) && (a == x || a == y)
    ensures Durable(g, Step(s, d), a) && TraceOk(g, Step(s, d).trace, x, y)
  {
    hide Survives, TraceOk, Sound, Sized;
    assert d.durable[0] == d.mapped[0] by {
      PageZeroClean(d);
    }
    PointAdded(g, s.trace, Point(d, s.dur, s.dur), a, a, x, y);
  }

  lemma PageZeroClean(d: Disk)
    requires Settled(d)
    ensures |d.durable| >= 4 && d.durable[0] == d.mapped[0]
  {
  }

  lemma ResizeSettled(g: Geometry, d: Disk, n: nat)
    requires Settled(d) && n >= 4
    ensures Settled(SetLen(g, d, n)) && SetLen(g, d, n).durable[0] == d.durable[0]
    ensures |SetLen(g, d, n).mapped| == n
  {
  }

  lemma DurableTotal(g: Geometry, s: Sys, a: Abs)
    requires Durable(g, s, a)
    ensures 4 <= s.dur.meta.total <= |s.disk.durable| && |s.disk.durable| >= 4
  {
  }

  lemma ResizeSafe(g: Geometry, s: Sys, n: nat, a: Abs, x: Abs, y: Abs)
    requires Durable(g, s, a) && s.dur.meta.total <= n
    requires TraceOk(g, s.trace, x, y) && (a == x || a == y)
    ensures Durable(g, Step(s, SetLen(g, s.disk, n)), a)
    ensures TraceOk(g, Step(s, SetLen(g, s.disk, n)).trace, x, y)
  {
    hide Survives, TraceOk, Sound, Sized;
    DurableTotal(g, s, a);
    ResizeSized(g, s.disk, n);
    ResizeSettled(g, s.disk, n);
    ResizeKeeps(g, s.dur, s.disk, n, s.disk.durable[0], a);
    StepSafe(g, s, SetLen(g, s.disk, n), a, x, y);
  }

  /** A step that changes only a page nobody needs. */
  lemma TouchSafe(g: Geometry, s: Sys, d: Disk, i: nat, a: Abs, x: Abs, y: Abs)
    requires Durable(g, s, a) && Untouchable(g, s.dur, i) && SameExcept(s.disk, d, i)
    requires Settled(d) && Sized(g, d) && d.durable[0] == s.disk.durable[0]
    requires TraceOk(g, s.trace, x, y) && (a == x || a == y)
    ensures Durable(g, Step(s, d), a) && TraceOk(g, Step(s, d).trace, x, y)
  {
    hide Survives, TraceOk, Sound, Sized, Untouchable, SameExcept;
    DurableTotal(g, s, a);
    TouchKeeps(g, s.dur, s.disk, d, s.disk.durable[0], a, i);
    StepSafe(g, s, d, a, x, y);
  }

  // ── Growth and raw allocation ──────────────────────────────────────────────

  /** The file has been extended and mapped: memory may use the new pages. */
  lemma GrownSteady(g: Geometry, s: Sys, s1: Sys, a: Abs)
    requires Steady(g, s, a) && Room(g, 2 * s.mem.meta.total)
    requires Durable(g, s1, a) && s1.dur == s.dur && s1.mem == s.mem
    requires |s1.disk.mapped| == 2 * s.mem.meta.total
    ensures Steady(g, WithMeta(s1, GrowTo(s.mem.meta, 2 * s.mem.meta.total)).(mapped := true), a)
  {
    hide Survives, Sound, Sized, Consistent, GrowTo, DirsLag;
    GrowTotals(s.mem.meta, 2 * s.mem.meta.total);
    GrowConsistent(g, Held(s));
  }

  /** Memory is as it was and the file still covers it. */
  lemma StillSteady(g: Geometry, s: Sys, s1: Sys, a: Abs)
    requires Steady(g, s, a)
    requires Durable(g, s1, a) && s1.dur == s.dur && s1.mem == s.mem
    requires |s1.disk.mapped| >= s.mem.meta.total
    ensures Steady(g, s1, a) && Steady(g, s1.(mapped := false), a)
  {
    hide Survives, Sound, Sized, Consistent, DirsLag;
  }

  lemma StepFrame(s: Sys, d: Disk)
    ensures Step(s, d).dur == s.dur && Step(s, d).mem == s.mem && Step(s, d).disk == d
  {
  }

  /** The extended file, kept or cut back to what memory covers. */
  lemma UnusedGrowth(g: Geometry, s: Sys, shrinks: bool, a: Abs, x: Abs, y: Abs)
    requires Steady(g, s, a) && TraceOk(g, s.trace, x, y) && (a == x || a == y)
    ensures
      var s1 := Step(s, SetLen(g, s.disk, 2 * s.mem.meta.total));
      var s2 := if shrinks then Step(s1, SetLen(g, s1.disk, s.mem.meta.total)) else s1;
      Steady(g, s2.(mapped := false), a) && TraceOk(g, s2.trace, x, y)
  {
    hide *;
    SteadyParts(g, s, a);
    var smaller, larger := s.mem.meta.total, 2 * s.mem.meta.total;
    var s1 := Step(s, SetLen(g, s.disk, larger));
    var s2 := Step(s1, SetLen(g, s1.disk, smaller));
    StepFrame(s, SetLen(g, s.disk, larger));
    StepFrame(s1, SetLen(g, s1.disk, smaller));
    ResizeSettled(g, s.disk, larger);
    ResizeSafe(g, s, larger, a, x, y);
    StillSteady(g, s, s1, a);
    ResizeSettled(g, s1.disk, smaller);
    ResizeSafe(g, s1, smaller, a, x, y);
    StillSteady(g, s, s2, a);
  }

  /** A growth that fails, in any of its three ways, leaves memory alone and the durable
      state survives. */
  lemma GrowFails(g: Geometry, s: Sys, env: Env, a: Abs, x: Abs, y: Abs)
    requires Steady(g, s, a) && Grow(g, s, env).1.Err?
    requires TraceOk(g, s.trace, x, y) && (a == x || a == y)
    ensures var s' := Grow(g, s, env).0;
      Steady(g, s', a) && TraceOk(g, s'.trace, x, y) && s'.mem == s.mem
  {
    hide Steady, TraceOk, GrowTo, SetLen;
    DropMapping(g, s, a);
    var answer := env(s.mem.meta.total * 2);
    if answer.NotMapped? {
      UnusedGrowth(g, s, answer.shrinks, a, x, y);
    }
  }

  lemma GrowResult(g: Geometry, s: Sys, env: Env)
    requires Grow(g, s, env).1.Ok?
    ensures
      var total := 2 * s.mem.meta.total;
      var s1 := Step(s, SetLen(g, s.disk, total));
      var s' := Grow(g, s, env).0;
      && s' == WithMeta(s1, GrowTo(s.mem.meta, total)).(mapped := true)
      && s'.trace == s1.trace && s1.dur == s.dur && s1.mem == s.mem && s1.disk == SetLen(g, s.disk, total)
      && s'.mapped && s'.mem == s.mem.(meta := GrowTo(s.mem.meta, total))
  {
    hide SetLen, GrowTo;
  }

  /** A growth that succeeds doubles the bitmap in memory; the durable state survives. */
  lemma GrowSucceeds(g: Geometry, s: Sys, env: Env, a: Abs, x: Abs, y: Abs)
    requires Steady(g, s, a) && Room(g, 2 * s.mem.meta.total) && Grow(g, s, env).1.Ok?
    requires TraceOk(g, s.trace, x, y) && (a == x || a == y)
    ensures var s' := Grow(g, s, env).0;
      && Steady(g, s', a) && TraceOk(g, s'.trace, x, y) && s'.mapped
      && s'.mem == s.mem.(meta := GrowTo(s.mem.meta, 2 * s.mem.meta.total))
  {
    hide *;
    SteadyParts(g, s, a);
    GrowResult(g, s, env);
    var larger := 2 * s.mem.meta.total;
    ResizeSettled(g, s.disk, larger);
    ResizeSafe(g, s, larger, a, x, y);
    GrownSteady(g, s, Step(s, SetLen(g, s.disk, larger)), a);
  }

  lemma DropMapping(g: Geometry, s: Sys, a: Abs)
    requires Steady(g, s, a)
    ensures forall b :: Steady(g, s.(mapped := b), a)
  {
    hide Survives, Consistent, Sound, Sized, DirsLag;
  }

  lemma SteadyParts(g: Geometry, s: Sys, a: Abs)
    requires Steady(g, s, a)
    ensures Durable(g, s, a) && Settled(s.disk) && Sized(g, s.disk)
    ensures 4 <= s.mem.meta.total <= |s.disk.mapped| && s.dur.meta.total <= s.mem.meta.total
  {
    hide Survives, Sound, Sized, DirsLag, DirShape, Owned;
  }

  lemma GrowTotals(m: Meta, total: nat)
    ensures GrowTo(m, total).total == total && GrowTo(m, total).generation == m.generation
  {
  }

  lemma ReservedTaken(m: Meta, id: nat)
    requires Exact(m) && id !in AllocatedSet(m)
    ensures id !in Range(FIRST_DATA_PAGE)
  {
  }

  /** What a raw allocation that returned `id` did to the bitmap. */
  ghost predicate TookPage(m: Meta, m': Meta, id: nat) {
    && FIRST_DATA_PAGE <= id && id !in AllocatedSet(m)
    && AllocatedSet(m') == AllocatedSet(m) + {id}
    && m.total <= m'.total
  }

  lemma MarkSafe(g: Geometry, s: Sys, id: nat, a: Abs)
    requires Steady(g, s, a) && FreeSlot(s.mem.meta) == Some(id)
    ensures Steady(g, WithMeta(s, Mark(s.mem.meta, id)), a)
    ensures TookPage(s.mem.meta, Mark(s.mem.meta, id), id)
    ensures Mark(s.mem.meta, id).freeCount + 1 == s.mem.meta.freeCount
    ensures Mark(s.mem.meta, id).total == s.mem.meta.total
  {
    hide Survives, Sound, Sized, Mark, FreeSlot, AllocatedSet, Consistent, DirsLag, Exact, Allocated;
    SteadyMeta(g, s, a);
    FreeSlotIsSmallest(s.mem.meta);
    MarkConsistent(g, Held(s), id);
    MarkAllocates(s.mem.meta, id);
    InAllocatedSet(s.mem.meta, id);
    ReservedTaken(s.mem.meta, id);
  }

  lemma InAllocatedSet(m: Meta, id: nat)
    ensures id in AllocatedSet(m) <==> Allocated(m, id)
  {
  }

  /** The source's `expect("grow always adds free pages")` never fires. */
  lemma GrowMakesRoom(g: Geometry, m: Mem)
    requires Consistent(g, m) && Room(g, 2 * m.meta.total)
    ensures FreeSlot(GrowTo(m.meta, 2 * m.meta.total)).Some?
  {
    hide FreeSlot, GrowTo, DirShape, Owned, Doubled;
    GrowConsistent(g, m);
    FreeSlotIsSmallest(GrowTo(m.meta, 2 * m.meta.total));
  }

  lemma RawSafe(g: Geometry, s: Sys, env: Env, n: nat, a: Abs, x: Abs, y: Abs)
    requires Steady(g, s, a) && n > 0 && Capacity(g, s.mem.meta, n)
    requires TraceOk(g, s.trace, x, y) && (a == x || a == y)
    ensures
      var (s', r) := AllocRaw(g, s, env);
      && Steady(g, s', a) && TraceOk(g, s'.trace, x, y)
      && (r.Ok? ==> TookPage(s.mem.meta, s'.mem.meta, r.value) && Capacity(g, s'.mem.meta, n - 1)
                    && (s.mapped ==> s'.mapped))
      && (r.Err? ==> s'.mem == s.mem)
  {
    hide Steady, TraceOk, FreeSlot, GrowTo, Mark, Capacity, Consistent, Exact, TookPage, Grow;
    SteadyMeta(g, s, a);
    var m := s.mem.meta;
    FreeSlotIsSmallest(m);
    match FreeSlot(m)
    case Some(id) =>
      MarkSafe(g, s, id, a);
      CapacityTake(g, m, Mark(m, id), n);
    case None =>
      GrowTotals(m, 2 * m.total);
      GrowKeepsAllocated(m, 2 * m.total);
      CapacityGrow(g, m, GrowTo(m, 2 * m.total), n);
      var (s1, r) := Grow(g, s, env);
      if r.Err? {
        GrowFails(g, s, env, a, x, y);
      } else {
        GrowSucceeds(g, s, env, a, x, y);
        TakeAfterGrowth(g, s, s1, n, a);
      }
  }

  lemma TakeAfterGrowth(g: Geometry, s: Sys, s1: Sys, n: nat, a: Abs)
    requires Consistent(g, s.mem) && Steady(g, s1, a) && s.mem.meta.freeCount == 0 && n > 0 && s.mem.meta.total > 0
    requires Room(g, 2 * s.mem.meta.total)
    requires s1.mem == s.mem.(meta := GrowTo(s.mem.meta, 2 * s.mem.meta.total))
    requires Capacity(g, s1.mem.meta, n)
    ensures FreeSlot(s1.mem.meta).Some?
    ensures
      var id := FreeSlot(s1.mem.meta).value;
      var s2 := WithMeta(s1, Mark(s1.mem.meta, id));
      && Steady(g, s2, a) && TookPage(s.mem.meta, s2.mem.meta, id) && Capacity(g, s2.mem.meta, n - 1)
  {
    var m := s.mem.meta;
    hide Steady, FreeSlot, GrowTo, Mark, AllocatedSet, Room, Consistent, Exact, Capacity;
    GrowConsistent(g, s.mem);
    GrowMakesRoom(g, s.mem);
    GrowTotals(m, 2 * m.total);
    var m1 := s1.mem.meta;
    MarkSafe(g, s1, FreeSlot(m1).value, a);
    CapacityTake(g, m1, Mark(m1, FreeSlot(m1).value), n);
  }

  lemma SteadyMeta(g: Geometry, s: Sys, a: Abs)
    requires Steady(g, s, a)
    ensures Exact(s.mem.meta) && Consistent(g, s.mem) && Consistent(g, Held(s)) && s.mem.meta.total >= 4
  {
    hide Durable, MetaFits, Doubled, DirShape, Owned, DirsLag;
    LagConsistent(g, s.mem, Held(s).(active := s.mem.active));
  }

  // ── Several pages at once ──────────────────────────────────────────────────

  function ToSet(ids: seq<nat>): set<nat> {
    set x | x in ids
  }

  lemma {:induction false} DistinctSize(ids: seq<nat>)
    requires Distinct(ids)
    ensures |ToSet(ids)| == |ids|
    decreases |ids|
  {
    if ids == [] {
      assert ToSet(ids) == {};
    } else {
      DistinctSize(ids[1..]);
      assert ToSet(ids) == ToSet(ids[1..]) + {ids[0]};
      assert ids[0] !in ids[1..];
    }
  }

  /** The pages a run of raw allocations took: distinct, unreserved, free before, allocated now. */
  ghost predicate TookPages(m: Meta, m': Meta, ids: seq<nat>) {
    && Distinct(ids)
    && (forall x :: x in ids ==> FIRST_DATA_PAGE <= x && x !in AllocatedSet(m))
    && AllocatedSet(m') == AllocatedSet(m) + ToSet(ids)
    && m.total <= m'.total
  }

  lemma TookMore(m: Meta, m1: Meta, m2: Meta, id: nat, ids: seq<nat>)
    requires TookPage(m, m1, id) && TookPages(m1, m2, ids)
    ensures TookPages(m, m2, [id] + ids)
  {
    hide AllocatedSet;
    assert id in AllocatedSet(m1);
    assert ToSet([id] + ids) == {id} + ToSet(ids);
  }

  lemma {:induction false} RawsSafe(g: Geometry, s: Sys, env: Env, n: nat, a: Abs, x: Abs, y: Abs)
    requires Steady(g, s, a) && Capacity(g, s.mem.meta, n)
    requires TraceOk(g, s.trace, x, y) && (a == x || a == y)
    ensures
      var (s', ids, r) := AllocRaws(g, s, env, n);
      && Steady(g, s', a) && TraceOk(g, s'.trace, x, y)
      && TookPages(s.mem.meta, s'.mem.meta, ids)
      && (r.Ok? && s.mapped ==> s'.mapped)
    decreases n
  {
    hide Steady, TraceOk, Capacity, TookPage, TookPages, AllocRaw;
    if n == 0 {
      TookNothing(s.mem.meta);
    } else {
      RawSafe(g, s, env, n, a, x, y);
      var (s1, r) := AllocRaw(g, s, env);
      if r.Ok? {
        RawsSafe(g, s1, env, n - 1, a, x, y);
        var (s2, ids, r2) := AllocRaws(g, s1, env, n - 1);
        TookMore(s.mem.meta, s1.mem.meta, s2.mem.meta, r.value, ids);
      } else {
        TookNothing(s.mem.meta);
      }
    }
  }

  lemma TookNothing(m: Meta)
    ensures TookPages(m, m, [])
  {
  }

  /** Pages just taken are referenced by nothing. */
  lemma TakenAreFresh(m: Mem, m': Mem, ids: seq<nat>, x: nat)
    requires Owned(m) && m'.blocks == m.blocks && m'.dirs == m.dirs
    requires TookPages(m.meta, m'.meta, ids) && x in ids
    ensures FreshPage(m', x)
  {
    hide Referenced;
    SameDirectory(m, m');
    InAllocatedSet(m.meta, x);
    InAllocatedSet(m'.meta, x);
    assert x in ToSet(ids);
  }
}
