/** Bulk allocation and release of regular pages: `alloc_bulk` and `free_bulk`. */
module Bulk {
  import opened Bytes
  import opened Bits
  import opened Results
  import opened Metadata
  import opened Disks
  import opened Recovery
  import opened Sorting
  import opened PagerSpec
  import opened Ownership
  import opened Safety
  import opened Entries
  import opened RawAllocation
  import opened Operations

  predicate IdLeq(x: nat, y: nat) {
    x <= y
  }

  function UnmarkAll(m: Meta, ids: seq<nat>): Meta
    decreases |ids|
  {
    if ids == [] then m else UnmarkAll(Unmark(m, ids[0]), ids[1..])
  }

  /** Raw allocations and one commit; on failure the pages taken so far are given back. */
  function AllocBulk(g: Geometry, s: Sys, env: Env, n: nat): (Sys, Result<seq<nat>>) {
    if n == 0 then (s, Ok([]))
    else
      var (s1, ids, r) := AllocRaws(g, s, env, n);
      match r
      case Err(e) => (WithMeta(s1, UnmarkAll(s1.mem.meta, ids)), Err(e))
      case Ok(_) =>
        var (s2, c) := Commit(g, s1);
        if c.Ok? then (s2, Ok(ids)) else (s2, Err(c.error))
  }

  /** The first id, in the order given, that may not be freed. */
  function CheckIds(m: Meta, ids: seq<nat>): Result<()> {
    if ids == [] then Ok(())
    else if ids[0] < FIRST_DATA_PAGE then Err(ReservedPage)
    else if ids[0] >= m.total then Err(OutOfBounds)
    else if !Allocated(m, ids[0]) then Err(DoubleFree)
    else CheckIds(m, ids[1..])
  }

  function FreeBulk(g: Geometry, s: Sys, ids: seq<nat>): (Sys, Result<()>) {
    if ids == [] then (s, Ok(()))
    else
      var sorted := Sort(ids, IdLeq);
      if AdjacentEqual(sorted) then (s, Err(DoubleFree))
      else
        match CheckIds(s.mem.meta, sorted)
        case Err(e) => (s, Err(e))
        case Ok(_) => Commit(g, WithMeta(s, UnmarkAll(s.mem.meta, sorted)))
  }

  // ── Releasing several pages ────────────────────────────────────────────────

  ghost predicate Freeable(m: Meta, ids: seq<nat>) {
    Distinct(ids) && forall x :: x in ids ==> FIRST_DATA_PAGE <= x && Allocated(m, x)
  }

  lemma FreeableTail(m: Meta, ids: seq<nat>)
    requires Exact(m) && ids != [] && Freeable(m, ids)
    ensures Freeable(Unmark(m, ids[0]), ids[1..])
  {
    hide Unmark, Exact;
    assert ids[0] in ids;
    UnmarkFrees(m, ids[0]);
    var rest := ids[1..];
    forall x | x in rest
      ensures FIRST_DATA_PAGE <= x && Allocated(Unmark(m, ids[0]), x)
    {
      var j :| 0 <= j < |rest| && rest[j] == x;
      assert ids[j + 1] == x != ids[0];
      InAllocatedSet(m, x);
      InAllocatedSet(Unmark(m, ids[0]), x);
    }
  }

  lemma {:induction false} UnmarkAllFrees(m: Meta, ids: seq<nat>)
    requires Exact(m) && Freeable(m, ids)
    ensures
      var m' := UnmarkAll(m, ids);
      && Exact(m') && AllocatedSet(m') == AllocatedSet(m) - ToSet(ids)
      && m'.freeCount == m.freeCount + |ids|
      && m'.total == m.total && m'.generation == m.generation
    decreases |ids|
  {
    hide Exact, Allocated, Unmark, AllocatedSet;
    if ids != [] {
      assert ids[0] in ids;
      UnmarkFrees(m, ids[0]);
      FreeableTail(m, ids);
      UnmarkAllFrees(Unmark(m, ids[0]), ids[1..]);
      assert ToSet(ids) == {ids[0]} + ToSet(ids[1..]);
    }
  }

  lemma UnmarkGeneration(m: Meta, id: nat)
    ensures Unmark(m, id).generation == m.generation
  {
  }

  lemma {:induction false} UnmarkAllGeneration(m: Meta, ids: seq<nat>)
    ensures UnmarkAll(m, ids).generation == m.generation
    decreases |ids|
  {
    hide Unmark;
    if ids != [] {
      UnmarkGeneration(m, ids[0]);
      UnmarkAllGeneration(Unmark(m, ids[0]), ids[1..]);
    }
  }

  lemma {:induction false} CheckIdsDecides(m: Meta, ids: seq<nat>)
    ensures CheckIds(m, ids).Ok? <==> forall x :: x in ids ==> FIRST_DATA_PAGE <= x && Allocated(m, x)
  {
    hide BitAt;
    if ids != [] {
      CheckIdsDecides(m, ids[1..]);
      assert ids[0] in ids;
      assert forall x :: x in ids <==> x == ids[0] || x in ids[1..];
    }
  }

  lemma IdOrder()
    ensures TotalOrder(IdLeq)
  {
  }

  lemma SortFreeable(m: Meta, ids: seq<nat>)
    ensures Freeable(m, ids) <==>
            !AdjacentEqual(Sort(ids, IdLeq)) && CheckIds(m, Sort(ids, IdLeq)).Ok?
    ensures Freeable(m, ids) ==> Freeable(m, Sort(ids, IdLeq))
    ensures ToSet(Sort(ids, IdLeq)) == ToSet(ids)
  {
    hide Sort, AdjacentEqual, Allocated, Distinct;
    var sorted := Sort(ids, IdLeq);
    IdOrder();
    SortedTest(ids, IdLeq);
    SortSorts(ids, IdLeq);
    AdjacentDecides(sorted, IdLeq);
    CheckIdsDecides(m, sorted);
    forall x: nat
      ensures x in sorted <==> x in ids
    {
      SortMembers(ids, IdLeq, x);
    }
  }

  /** `free_bulk` succeeds exactly when the ids are distinct allocated data pages; then it
      removes exactly that set in one generation step, and otherwise changes nothing. */
  lemma FreeBulkExact(g: Geometry, s: Sys, ids: seq<nat>)
    requires Exact(s.mem.meta) && s.mapped
    ensures
      var (s', r) := FreeBulk(g, s, ids);
      && (r.Ok? <==> Freeable(s.mem.meta, ids))
      && (r.Ok? && ids != [] ==>
            && AllocatedSet(s'.mem.meta) == AllocatedSet(s.mem.meta) - ToSet(ids)
            && s'.mem.meta.freeCount == s.mem.meta.freeCount + |ids|
            && s'.mem.meta.generation == s.mem.meta.generation + 1
            && s'.mem.meta.total == s.mem.meta.total
            && s'.mem.blocks == s.mem.blocks && s'.mem.dirs == s.mem.dirs)
      && (r.Err? || ids == [] ==> s' == s)
  {
    hide Exact, Freeable, Sort, AdjacentEqual, AllocatedSet, CheckIds, ToSet;
    SortFreeable(s.mem.meta, ids);
    if ids == [] {
      assert Freeable(s.mem.meta, ids) by {
        FreeableNothing(s.mem.meta);
      }
    } else if Freeable(s.mem.meta, ids) {
      var sorted := Sort(ids, IdLeq);
      UnmarkAllFrees(s.mem.meta, sorted);
      var meta := UnmarkAll(s.mem.meta, sorted);
      CommitFrame(g, WithMeta(s, meta));
      hide Commit, UnmarkAll;
      GenerationOnly(meta);
    }
  }

  lemma FreeableNothing(m: Meta)
    ensures Freeable(m, [])
  {
  }

  lemma GenerationOnly(m: Meta)
    ensures AllocatedSet(NextGeneration(m)) == AllocatedSet(m)
  {
  }

  // ── Allocating several pages ───────────────────────────────────────────────

  /** Each id is larger than the ones before it, and every smaller page was taken already. */
  ghost predicate TakesSmallest(m: Meta, ids: seq<nat>) {
    && (forall i, j :: 0 <= i < j < |ids| ==> ids[i] < ids[j])
    && (forall i, x: nat :: 0 <= i < |ids| && x < ids[i] ==> x in AllocatedSet(m) || x in ids)
  }

  lemma RawTakesSmallest(g: Geometry, s: Sys, env: Env, n: nat)
    requires Consistent(g, s.mem) && Capacity(g, s.mem.meta, n) && n > 0
    ensures
      var (s', r) := AllocRaw(g, s, env);
      r.Ok? ==>
        && TookPage(s.mem.meta, s'.mem.meta, r.value)
        && (forall x: nat :: x < r.value ==> x in AllocatedSet(s.mem.meta))
        && Consistent(g, s'.mem) && Capacity(g, s'.mem.meta, n - 1)
        && GrownTotal(s'.mem.meta.freeCount, s'.mem.meta.total, n - 1)
           == GrownTotal(s.mem.meta.freeCount, s.mem.meta.total, n)
    ensures AllocRaw(g, s, env).1.Err? ==> AllocRaw(g, s, env).0.mem == s.mem
  {
    var m := s.mem.meta;
    hide Consistent, Exact, Capacity, GrownTotal, FreeSlot, Mark, GrowTo, AllocatedSet, TookPage, Grow, Room;
    ConsistentMeta(g, s.mem);
    FreeSlotIsSmallest(m);
    if FreeSlot(m).Some? {
      TakeBookkeeping(g, s.mem, FreeSlot(m).value, n);
      TakeSmallest(m, m, FreeSlot(m).value);
    } else {
      GrowTotals(m, 2 * m.total);
      GrowKeepsAllocated(m, 2 * m.total);
      CapacityGrow(g, m, GrowTo(m, 2 * m.total), n);
      GrowConsistent(g, s.mem);
      GrownOnce(m, n);
      var m1 := s.mem.(meta := GrowTo(m, 2 * m.total));
      GrowMakesRoom(g, s.mem);
      TakeBookkeeping(g, m1, FreeSlot(m1.meta).value, n);
      TakeSmallest(m, m1.meta, FreeSlot(m1.meta).value);
      GrowMemory(g, s, env);
    }
  }

  lemma GrowMemory(g: Geometry, s: Sys, env: Env)
    ensures var (s', r) := Grow(g, s, env);
      s'.mem == if r.Ok? then s.mem.(meta := GrowTo(s.mem.meta, 2 * s.mem.meta.total)) else s.mem
  {
  }

  lemma GrownOnce(m: Meta, n: nat)
    requires m.total > 0 && m.freeCount == 0 && n > 0
    ensures GrownTotal(m.total, 2 * m.total, n) == GrownTotal(m.freeCount, m.total, n)
  {
  }

  lemma ConsistentMeta(g: Geometry, m: Mem)
    requires Consistent(g, m)
    ensures Exact(m.meta) && m.meta.total >= 4
  {
  }

  lemma TakeBookkeeping(g: Geometry, m1: Mem, id: nat, n: nat)
    requires Consistent(g, m1) && FreeSlot(m1.meta) == Some(id)
    requires Capacity(g, m1.meta, n) && n > 0
    ensures
      var m2 := m1.(meta := Mark(m1.meta, id));
      && Consistent(g, m2) && Capacity(g, m2.meta, n - 1)
      && GrownTotal(m2.meta.freeCount, m2.meta.total, n - 1) == GrownTotal(m1.meta.freeCount, m1.meta.total, n)
  {
    hide *;
    ConsistentMeta(g, m1);
    FreeSlotIsSmallest(m1.meta);
    MarkAllocates(m1.meta, id);
    MarkConsistent(g, m1, id);
    GrownShift(m1.meta.freeCount, m1.meta.total, n);
    CapacityTake(g, m1.meta, Mark(m1.meta, id), n);
  }

  /** Marking the free slot of a bitmap with the same pages allocated (grown or not). */
  lemma TakeSmallest(m: Meta, m1: Meta, id: nat)
    requires Exact(m1) && AllocatedSet(m1) == AllocatedSet(m) && m.total <= m1.total
    requires FreeSlot(m1) == Some(id)
    ensures TookPage(m, Mark(m1, id), id)
    ensures forall x: nat :: x < id ==> x in AllocatedSet(m)
  {
    hide FreeSlot, Mark, Exact, BitAt, AllocatedSet;
    FreeSlotIsSmallest(m1);
    MarkAllocates(m1, id);
    InAllocatedSet(m1, id);
    ReservedTaken(m1, id);
    forall x: nat | x < id
      ensures x in AllocatedSet(m)
    {
      InAllocatedSet(m1, x);
    }
  }

  lemma SmallestFirst(m: Meta, m1: Meta, id: nat, ids: seq<nat>)
    requires TookPage(m, m1, id) && (forall x: nat :: x < id ==> x in AllocatedSet(m))
    requires TakesSmallest(m1, ids) && forall x :: x in ids ==> x !in AllocatedSet(m1)
    ensures TakesSmallest(m, [id] + ids)
  {
    hide AllocatedSet;
    var all := [id] + ids;
    forall k | 0 <= k < |ids|
      ensures ids[k] > id
    {
      assert ids[k] !in AllocatedSet(m1);
    }
    forall i, x: nat | 0 <= i < |all| && x < all[i]
      ensures x in AllocatedSet(m) || x in all
    {
      if i > 0 {
        assert x in AllocatedSet(m1) || x in ids;
      }
    }
  }

  /** Raw allocations take the smallest free pages in increasing order and grow the file to
      the first doubling that holds them. */
  lemma {:induction false} RawsTakeSmallest(g: Geometry, s: Sys, env: Env, n: nat)
    requires Consistent(g, s.mem) && Capacity(g, s.mem.meta, n)
    ensures
      var (s', ids, r) := AllocRaws(g, s, env, n);
      && Consistent(g, s'.mem) && TookPages(s.mem.meta, s'.mem.meta, ids)
      && TakesSmallest(s.mem.meta, ids)
      && (r.Ok? ==> s'.mem.meta.total == GrownTotal(s.mem.meta.freeCount, s.mem.meta.total, n))
    decreases n
  {
    hide Consistent, Capacity, AllocRaw, TookPage, TookPages, TakesSmallest, AllocatedSet;
    if n == 0 {
      TookNothing(s.mem.meta);
      TakesNothing(s.mem.meta);
    } else {
      var (s1, r) := AllocRaw(g, s, env);
      RawTakesSmallest(g, s, env, n);
      if r.Ok? {
        RawsTakeSmallest(g, s1, env, n - 1);
        var (s2, ids, r2) := AllocRaws(g, s1, env, n - 1);
        TookMore(s.mem.meta, s1.mem.meta, s2.mem.meta, r.value, ids);
        TookFree(s1.mem.meta, s2.mem.meta, ids);
        SmallestFirst(s.mem.meta, s1.mem.meta, r.value, ids);
      } else {
        TookNothing(s.mem.meta);
        TakesNothing(s.mem.meta);
      }
    }
  }

  lemma TakesNothing(m: Meta)
    ensures TakesSmallest(m, [])
  {
  }

  lemma TookFree(m: Meta, m': Meta, ids: seq<nat>)
    requires TookPages(m, m', ids)
    ensures forall x :: x in ids ==> x !in AllocatedSet(m)
  {
  }

  /** The final page count is reached by doubling, makes room for n more pages, and half of
      it would not. */
  lemma {:induction false} GrownTotalIsLeast(free: nat, total: nat, n: nat) returns (k: nat)
    requires total > 0
    ensures GrownTotal(free, total, n) == total * Pow2(k)
    ensures n <= free + (total * Pow2(k) - total)
    ensures k > 0 ==> n > free + (total * Pow2(k - 1) - total)
    decreases if n <= free then 0 else n - free
  {
    if n <= free {
      k := 0;
    } else {
      k := GrownTotalIsLeast(free + total, 2 * total, n);
      DoubleProduct(total, k);
      if k > 0 {
        DoubleProduct(total, k - 1);
      }
      k := k + 1;
    }
  }

  lemma DoubleProduct(total: nat, k: nat)
    ensures 2 * total * Pow2(k) == total * Pow2(k + 1)
  {
    assert Pow2(k + 1) == 2 * Pow2(k);
  }

  // ── The calls ──────────────────────────────────────────────────────────────

  lemma TookFreeable(m: Meta, m': Meta, ids: seq<nat>)
    requires TookPages(m, m', ids)
    ensures Freeable(m', ids)
    ensures AllocatedSet(m') - ToSet(ids) == AllocatedSet(m)
  {
    hide BitAt;
    forall x | x in ids
      ensures Allocated(m', x)
    {
      assert x in ToSet(ids) && x in AllocatedSet(m');
    }
  }

  /** `alloc_bulk`: success takes the smallest free pages in increasing order, growing to the
      least doubling that holds them; failure leaves the allocated set as it was. */
  lemma AllocBulkExact(g: Geometry, s: Sys, env: Env, n: nat)
    requires Consistent(g, s.mem) && Capacity(g, s.mem.meta, n) && s.mapped
    ensures
      var (s', r) := AllocBulk(g, s, env, n);
      && s'.mem.blocks == s.mem.blocks && s'.mem.dirs == s.mem.dirs
      && (r.Ok? ==>
            && |r.value| == n && TakesSmallest(s.mem.meta, r.value)
            && TookPages(s.mem.meta, s'.mem.meta, r.value)
            && s'.mem.meta.total == GrownTotal(s.mem.meta.freeCount, s.mem.meta.total, n))
      && (r.Err? ==> AllocatedSet(s'.mem.meta) == AllocatedSet(s.mem.meta) && s'.dur == s.dur)
  {
    hide Consistent, Capacity, TakesSmallest, TookPages, AllocRaws, Commit, AllocatedSet, UnmarkAll, GrownTotal;
    var (s1, ids, r) := AllocRaws(g, s, env, n);
    RawsTakeSmallest(g, s, env, n);
    RawsKeepDirs(g, s, env, n);
    RawsMapped(g, s, env, n);
    if n == 0 {
      NoRaws(g, s, env);
    } else if r.Ok? {
      CommitFrame(g, s1);
      TookThenBumped(s.mem.meta, s1.mem.meta, ids);
    } else {
      TookFreeable(s.mem.meta, s1.mem.meta, ids);
      ConsistentMeta(g, s1.mem);
      UnmarkAllFrees(s1.mem.meta, ids);
    }
  }

  lemma NoRaws(g: Geometry, s: Sys, env: Env)
    ensures AllocRaws(g, s, env, 0) == (s, [], Ok(()))
  {
  }

  lemma RawMapped(g: Geometry, s: Sys, env: Env)
    requires s.mapped
    ensures AllocRaw(g, s, env).1.Ok? ==> AllocRaw(g, s, env).0.mapped
  {
    hide FreeSlot, Mark, GrowTo, SetLen;
  }

  lemma {:induction false} RawsMapped(g: Geometry, s: Sys, env: Env, n: nat)
    requires s.mapped
    ensures var (s', ids, r) := AllocRaws(g, s, env, n); r.Ok? ==> s'.mapped
    decreases n
  {
    hide FreeSlot, GrowTo, Mark, SetLen;
    if n > 0 {
      var (s1, r) := AllocRaw(g, s, env);
      if r.Ok? {
        RawsMapped(g, s1, env, n - 1);
      }
    }
  }

  // ── The same by single calls ───────────────────────────────────────────────

  /** n single `alloc` calls, stopping at the first that fails. */
  function AllocSingles(g: Geometry, s: Sys, env: Env, n: nat): (Sys, seq<nat>, Result<()>)
    decreases n
  {
    if n == 0 then (s, [], Ok(()))
    else
      var (s1, r) := Alloc(g, s, env);
      match r
      case Err(e) => (s1, [], Err(e))
      case Ok(id) =>
        var (s2, ids, r2) := AllocSingles(g, s1, env, n - 1);
        (s2, [id] + ids, r2)
  }

  /** The two bitmaps are the same up to the generation number. */
  predicate SameBits(m: Meta, m': Meta) {
    m' == m.(generation := m'.generation)
  }

  lemma SlotParallel(m: Meta, m': Meta)
    requires SameBits(m, m')
    ensures FreeSlot(m) == FreeSlot(m')
    ensures FreeSlot(m).Some? ==> SameBits(Mark(m, FreeSlot(m).value), Mark(m', FreeSlot(m).value))
  {
    hide FirstOpenByte, SetByteBit;
  }

  lemma GrowParallel(g: Geometry, s: Sys, t: Sys, env: Env)
    requires SameBits(s.mem.meta, t.mem.meta)
    ensures
      var (s', r) := Grow(g, s, env);
      var (t', q) := Grow(g, t, env);
      r == q && SameBits(s'.mem.meta, t'.mem.meta) && (r.Ok? ==> t'.mapped)
  {
    hide SetLen, Resize;
  }

  lemma RawParallel(g: Geometry, s: Sys, t: Sys, env: Env)
    requires SameBits(s.mem.meta, t.mem.meta)
    ensures
      var (s', r) := AllocRaw(g, s, env);
      var (t', q) := AllocRaw(g, t, env);
      r == q && SameBits(s'.mem.meta, t'.mem.meta) && (r.Ok? && t.mapped ==> t'.mapped)
  {
    hide FreeSlot, Mark, Grow, SameBits;
    SlotParallel(s.mem.meta, t.mem.meta);
    GrowParallel(g, s, t, env);
    SlotParallel(Grow(g, s, env).0.mem.meta, Grow(g, t, env).0.mem.meta);
  }

  lemma BumpParallel(m: Meta, m': Meta)
    requires SameBits(m, m')
    ensures SameBits(m, NextGeneration(m'))
  {
  }

  lemma {:induction false} RawsAreSingles(g: Geometry, s: Sys, t: Sys, env: Env, n: nat)
    requires SameBits(s.mem.meta, t.mem.meta) && t.mapped
    ensures
      var (s', ids, r) := AllocRaws(g, s, env, n);
      var (t', ids', q) := AllocSingles(g, t, env, n);
      ids == ids' && r == q && SameBits(s'.mem.meta, t'.mem.meta)
    decreases n
  {
    hide AllocRaw, Commit, SameBits;
    if n > 0 {
      RawParallel(g, s, t, env);
      var (s1, r) := AllocRaw(g, s, env);
      var (t1, q) := AllocRaw(g, t, env);
      if r.Ok? {
        CommitFrame(g, t1);
        BumpParallel(s1.mem.meta, t1.mem.meta);
        RawsAreSingles(g, s1, Commit(g, t1).0, env, n - 1);
      }
    }
  }

  lemma SameBitsAcross(m: Meta, m': Meta, n: Meta)
    requires SameBits(m, n) && m' == NextGeneration(m)
    ensures SameBits(m', n)
  {
  }

  /** `alloc_bulk` succeeds exactly when as many single `alloc` calls all do, and then it returns
      the same pages and leaves the same bitmap; a failure is the same failure. */
  lemma BulkIsSingles(g: Geometry, s: Sys, env: Env, n: nat)
    requires s.mapped
    ensures
      var (s', r) := AllocBulk(g, s, env, n);
      var (t', ids, q) := AllocSingles(g, s, env, n);
      match r
      case Ok(pages) => q.Ok? && pages == ids && SameBits(s'.mem.meta, t'.mem.meta)
      case Err(e) => q == Err(e)
  {
    hide AllocRaws, AllocSingles, Commit, SameBits, UnmarkAll;
    assert SameBits(s.mem.meta, s.mem.meta) by {
      SameBitsItself(s.mem.meta);
    }
    RawsAreSingles(g, s, s, env, n);
    RawsMapped(g, s, env, n);
    NoRaws(g, s, env);
    var (s1, ids, r) := AllocRaws(g, s, env, n);
    if n > 0 && r.Ok? {
      CommitFrame(g, s1);
      SameBitsAcross(s1.mem.meta, Commit(g, s1).0.mem.meta, AllocSingles(g, s, env, n).0.mem.meta);
    }
  }

  lemma SameBitsItself(m: Meta)
    ensures SameBits(m, m)
  {
  }

  /** Single `free` calls in the order given, stopping at the first that fails. */
  function FreeSingles(g: Geometry, s: Sys, ids: seq<nat>): (Sys, Result<()>)
    decreases |ids|
  {
    if ids == [] then (s, Ok(()))
    else
      var (s1, r) := Free(g, s, ids[0]);
      if r.Err? then (s1, r) else FreeSingles(g, s1, ids[1..])
  }

  /** An exact bitmap is determined by the pages it marks. */
  lemma BitmapDetermined(m: Meta, m': Meta)
    requires Exact(m) && Exact(m') && m.total == m'.total && AllocatedSet(m) == AllocatedSet(m')
    ensures m.bitmap == m'.bitmap && m.freeCount == m'.freeCount
  {
    hide Bit;
    forall i: nat | i < |m.bitmap|
      ensures m.bitmap[i] == m'.bitmap[i]
    {
      forall k: nat
        ensures Bit(m.bitmap[i], k) <==> Bit(m'.bitmap[i], k)
      {
        BitDetermined(m, m', i, k);
      }
      BitsDetermine(m.bitmap[i], m'.bitmap[i]);
    }
  }

  lemma BitDetermined(m: Meta, m': Meta, i: nat, k: nat)
    requires Exact(m) && Exact(m') && m.total == m'.total && AllocatedSet(m) == AllocatedSet(m')
    requires i < |m.bitmap|
    ensures Bit(m.bitmap[i], k) <==> Bit(m'.bitmap[i], k)
  {
    hide Bit, Pow2;
    if k < 8 {
      var x := 8 * i + k;
      assert x / 8 == i && x % 8 == k;
      InAllocatedSet(m, x);
      InAllocatedSet(m', x);
      assert BitAt(m.bitmap, x) <==> Bit(m.bitmap[i], k);
      assert BitAt(m'.bitmap, x) <==> Bit(m'.bitmap[i], k);
    } else {
      assert Pow2(8) == 0x100 by {
        BytePow();
      }
      HighBitsClear(m.bitmap[i], 8, k);
      HighBitsClear(m'.bitmap[i], 8, k);
    }
  }

  lemma BytePow()
    ensures Pow2(8) == 0x100
  {
  }

  lemma FreeableBumped(m: Meta, ids: seq<nat>)
    ensures Freeable(NextGeneration(m), ids) <==> Freeable(m, ids)
  {
  }

  /** One successful `free` of a data page. */
  lemma FreeSingle(g: Geometry, s: Sys, ids: seq<nat>)
    requires Exact(s.mem.meta) && s.mapped && ids != [] && Freeable(s.mem.meta, ids)
    ensures
      var (s', r) := Free(g, s, ids[0]);
      && r.Ok? && s'.mapped && Exact(s'.mem.meta) && Freeable(s'.mem.meta, ids[1..])
      && s'.mem.meta.total == s.mem.meta.total && s'.mem.blocks == s.mem.blocks && s'.mem.dirs == s.mem.dirs
      && AllocatedSet(s'.mem.meta) == AllocatedSet(s.mem.meta) - {ids[0]}
  {
    hide Exact, Allocated, Unmark, AllocatedSet, Commit;
    assert ids[0] in ids;
    var m := Unmark(s.mem.meta, ids[0]);
    UnmarkFrees(s.mem.meta, ids[0]);
    FreeableTail(s.mem.meta, ids);
    FreeableBumped(m, ids[1..]);
    CommitFrame(g, WithMeta(s, m));
    BumpExact(m);
  }

  lemma {:induction false} FreeSinglesExact(g: Geometry, s: Sys, ids: seq<nat>)
    requires Exact(s.mem.meta) && s.mapped && Freeable(s.mem.meta, ids)
    ensures
      var (s', r) := FreeSingles(g, s, ids);
      && r.Ok? && Exact(s'.mem.meta) && AllocatedSet(s'.mem.meta) == AllocatedSet(s.mem.meta) - ToSet(ids)
      && s'.mem.meta.total == s.mem.meta.total && s'.mem.blocks == s.mem.blocks && s'.mem.dirs == s.mem.dirs
    decreases |ids|
  {
    hide Exact, Freeable, AllocatedSet, Free;
    if ids == [] {
      assert ToSet(ids) == {};
    } else {
      FreeSingle(g, s, ids);
      FreeSinglesExact(g, Free(g, s, ids[0]).0, ids[1..]);
      assert ToSet(ids) == {ids[0]} + ToSet(ids[1..]);
    }
  }

  /** `free_bulk` leaves the bitmap that freeing the same ids one by one leaves, in any order. */
  lemma FreeBulkIsSingles(g: Geometry, s: Sys, ids: seq<nat>, order: seq<nat>)
    requires Exact(s.mem.meta) && s.mapped && Freeable(s.mem.meta, ids)
    requires Distinct(order) && forall x :: x in order <==> x in ids
    ensures
      var (s1, r1) := FreeBulk(g, s, ids);
      var (s2, r2) := FreeSingles(g, s, order);
      && r1.Ok? && r2.Ok? && s1.mem.meta.bitmap == s2.mem.meta.bitmap
      && s1.mem.meta.freeCount == s2.mem.meta.freeCount && s1.mem.meta.total == s2.mem.meta.total
      && s1.mem.blocks == s2.mem.blocks && s1.mem.dirs == s2.mem.dirs
  {
    hide FreeBulk, FreeSingles, Exact, AllocatedSet, Allocated;
    assert ToSet(order) == ToSet(ids);
    FreeSinglesExact(g, s, order);
    FreeBulkExact(g, s, ids);
    FreeBulkKeepsExact(g, s, ids);
    if ids == [] {
      assert AllocatedSet(s.mem.meta) - ToSet(ids) == AllocatedSet(s.mem.meta);
    }
    BitmapDetermined(FreeBulk(g, s, ids).0.mem.meta, FreeSingles(g, s, order).0.mem.meta);
  }

  lemma FreeBulkKeepsExact(g: Geometry, s: Sys, ids: seq<nat>)
    requires Exact(s.mem.meta) && s.mapped && Freeable(s.mem.meta, ids)
    ensures Exact(FreeBulk(g, s, ids).0.mem.meta)
  {
    hide Exact, Freeable, Sort, AdjacentEqual, AllocatedSet, CheckIds, Commit, UnmarkAll;
    SortFreeable(s.mem.meta, ids);
    if ids != [] {
      var sorted := Sort(ids, IdLeq);
      UnmarkAllFrees(s.mem.meta, sorted);
      CommitFrame(g, WithMeta(s, UnmarkAll(s.mem.meta, sorted)));
      BumpExact(UnmarkAll(s.mem.meta, sorted));
    }
  }

  // ── Crash safety ───────────────────────────────────────────────────────────

  lemma UnmarkAllConsistent(g: Geometry, m: Mem, ids: seq<nat>)
    requires Consistent(g, m) && Freeable(m.meta, ids)
    requires forall x :: x in ids ==> x !in Referenced(m)
    ensures
      var meta := UnmarkAll(m.meta, ids);
      Consistent(g, m.(meta := meta)) && meta.total == m.meta.total && meta.generation == m.meta.generation
  {
    hide Freeable, UnmarkAll, DirShape, BitAt, Referenced;
    var meta := UnmarkAll(m.meta, ids);
    ConsistentMeta(g, m);
    UnmarkAllFrees(m.meta, ids);
    forall x: nat | x in Referenced(m)
      ensures Allocated(meta, x)
    {
      assert x in AllocatedSet(m.meta) && x !in ToSet(ids) && x in AllocatedSet(meta);
    }
    AllocatedCount(meta);
    ReMetaConsistent(g, m, meta);
  }

  lemma TakenUnreferenced(m: Mem, m': Mem, ids: seq<nat>)
    requires Owned(m) && m'.blocks == m.blocks && m'.dirs == m.dirs && TookPages(m.meta, m'.meta, ids)
    ensures forall x :: x in ids ==> x !in Referenced(m')
  {
    hide Referenced, TookPages, Owned;
    forall x | x in ids
      ensures x !in Referenced(m')
    {
      TakenAreFresh(m, m', ids, x);
    }
  }

  lemma AllocBulkSafe(g: Geometry, s: Sys, env: Env, n: nat, a: Abs)
    requires Steady(g, s, a) && Capacity(g, s.mem.meta, n) && s.mem.meta.generation + 1 < U64_LIMIT
    requires TraceOk(g, s.trace, a, a)
    ensures
      var (s', r) := AllocBulk(g, s, env, n);
      && Steady(g, s', a) && TraceOk(g, s'.trace, a, a) && s'.mem.dirs == s.mem.dirs
      && (r.Ok? && (n > 0 || s.mapped) ==> s'.mapped)
  {
    hide Steady, TraceOk, Capacity, AllocRaws, Commit, TookPages, UnmarkAll;
    if n > 0 {
      RawsCommitted(g, s, env, n, a);
      RawsSafe(g, s, env, n, a, a, a);
      RawsKeepDirs(g, s, env, n);
      var (s1, ids, r) := AllocRaws(g, s, env, n);
      CommitFrame(g, s1);
      if r.Err? {
        RollbackSafe(g, s, s1, ids, a);
      }
    }
  }

  lemma RollbackSafe(g: Geometry, s: Sys, s1: Sys, ids: seq<nat>, a: Abs)
    requires Steady(g, s, a) && Steady(g, s1, a) && TookPages(s.mem.meta, s1.mem.meta, ids)
    requires s1.dur == s.dur
    ensures Steady(g, WithMeta(s1, UnmarkAll(s1.mem.meta, ids)), a)
  {
    hide Steady, TookPages, UnmarkAll, Freeable, Owned, Consistent, Referenced;
    SteadyMeta(g, s, a);
    SteadyMeta(g, s1, a);
    OwnedOf(g, Held(s));
    TakenUnreferenced(Held(s), Held(s1), ids);
    TookFreeable(s.mem.meta, s1.mem.meta, ids);
    UnmarkAllConsistent(g, Held(s1), ids);
    RemarkSteady(g, s1, UnmarkAll(s1.mem.meta, ids), a);
  }

  lemma FreeBulkSafe(g: Geometry, s: Sys, ids: seq<nat>, a: Abs)
    requires Steady(g, s, a) && s.mem.meta.generation + 1 < U64_LIMIT && TraceOk(g, s.trace, a, a)
    requires forall x :: x in ids ==> x !in Referenced(s.dur)
    ensures
      var (s', r) := FreeBulk(g, s, ids);
      Steady(g, s', a) && TraceOk(g, s'.trace, a, a) && s'.mem.dirs == s.mem.dirs && s'.mapped == s.mapped
  {
    hide Steady, TraceOk, Commit, UnmarkAll, Freeable, Sort, AdjacentEqual, CheckIds, Referenced, Consistent;
    SortFreeable(s.mem.meta, ids);
    var sorted := Sort(ids, IdLeq);
    if ids != [] && Freeable(s.mem.meta, sorted) {
      SteadyMeta(g, s, a);
      SameDirectory(s.dur, Held(s));
      forall x | x in sorted
        ensures x !in Referenced(Held(s))
      {
        SortMembers(ids, IdLeq, x);
      }
      UnmarkAllConsistent(g, Held(s), sorted);
      var t := WithMeta(s, UnmarkAll(s.mem.meta, sorted));
      RemarkSteady(g, s, t.mem.meta, a);
      CommitSteady(g, t, a, a, a);
      CommitFrame(g, t);
    }
  }
}
