/** What the sub-page allocator guarantees: all-or-nothing bulk calls, order independence, and
    pages given back. */
module SubSafety {
  import opened Bytes
  import opened Metadata
  import opened Recovery
  import opened Sorting
  import opened PagerSpec
  import opened Ownership
  import opened Safety
  import opened RawAllocation
  import opened Bulk
  import opened Accounting
  import opened SubSlots
  import opened SubAllocation

  // ── Freeing in bulk ────────────────────────────────────────────────────────

  lemma EmptiedRegular(n: nat, s: SubSys, emptied: seq<nat>, slots: Slots)
    requires SubOk(n, s) && ToSet(emptied) == BigPages(s.slots) - BigPages(slots)
    ensures ToSet(emptied) <= Regular(Held(s.inner))
  {
    hide BigPages, Regular;
  }

  /** The slots after clearing, with the emptied big pages released, or some of them. */
  lemma ReleasedSteady(g: Geometry, n: nat, s: SubSys, s': SubSys, emptied: seq<nat>, a: Abs)
    requires SubSteady(g, n, s, a) && Steady(g, s'.inner, a) && SlotsOk(n, s'.slots)
    requires BigPages(s'.slots) <= BigPages(s.slots)
    requires ToSet(emptied) == BigPages(s.slots) - BigPages(s'.slots)
    requires AllocatedSet(s.inner.mem.meta) - ToSet(emptied) <= AllocatedSet(s'.inner.mem.meta)
    requires Regular(Held(s.inner)) - ToSet(emptied) <= Regular(Held(s'.inner))
    ensures SubSteady(g, n, s', a) && Others(s) <= Others(s')
    ensures AllocatedSet(s'.inner.mem.meta) == AllocatedSet(s.inner.mem.meta) - ToSet(emptied) ==> Others(s') == Others(s)
  {
    hide Steady, BigPages, Regular, AllocatedSet, ToSet, SlotsOk;
    SubParts(g, n, s, a);
  }

  lemma AnyOrder(n: nat, slots: Slots, ids: seq<SubId>, ids': seq<SubId>, slots': Slots)
    requires Cleared(n, slots, ids, slots') && forall x :: x in ids <==> x in ids'
    ensures Cleared(n, slots, ids', slots')
  {
    hide SlotsOk, Shrunk, SubSlots.Live;
  }

  /** The second half of `free_bulk`, on ids that passed validation. */
  lemma ClearThenRelease(g: Geometry, n: nat, s: SubSys, ids: seq<SubId>, a: Abs)
    requires SubSteady(g, n, s, a) && n <= 64 && AllLive(s.slots, ids)
    requires s.inner.mem.meta.generation + |ids| < U64_LIMIT
    ensures
      var (slots, emptied) := ClearAll(s.slots, ids);
      var (inner, r) := ReleaseAll(g, s.inner, emptied);
      var s' := SubSys(slots, inner);
      && SubSteady(g, n, s', a) && inner.mapped == s.inner.mapped && Others(s) <= Others(s')
      && Cleared(n, s.slots, ids, slots)
      && inner.mem.meta.generation <= s.inner.mem.meta.generation + |ids|
      && (s.inner.mapped ==> r.Ok? && Freed(g, n, s, ids, s', a))
  {
    hide Steady, SubSteady, SubOk, ClearAll, ReleaseAll, AllLive, Cleared, SlotsOk, BigPages, Regular, AllocatedSet, ToSet, Others,
         Released;
    SubParts(g, n, s, a);
    ClearAllEffect(n, s.slots, ids);
    var (slots, emptied) := ClearAll(s.slots, ids);
    ClearedSlots(n, s.slots, ids, slots);
    EmptiedRegular(n, s, emptied, slots);
    ReleaseAllSafe(g, s.inner, emptied, a);
    ReleasedSteady(g, n, s, SubSys(slots, ReleaseAll(g, s.inner, emptied).0), emptied, a);
    DistinctSize(emptied);
  }

  lemma ClearedSlots(n: nat, slots: Slots, ids: seq<SubId>, slots': Slots)
    requires Cleared(n, slots, ids, slots')
    ensures SlotsOk(n, slots')
  {
  }

  /** `free_bulk` on a mapped file succeeds exactly when the ids are distinct and all live. Then
      those and no others are gone and each big page that became empty has been released once;
      otherwise nothing has changed. */
  lemma SubFreeBulkExact(g: Geometry, n: nat, s: SubSys, ids: seq<SubId>, a: Abs)
    requires SubSteady(g, n, s, a) && s.inner.mapped && n <= 64
    requires s.inner.mem.meta.generation + |ids| < U64_LIMIT
    ensures
      var (s', r) := SubFreeBulk(g, n, s, ids);
      && (r.Ok? <==> AllLive(s.slots, ids))
      && (r.Ok? ==> Freed(g, n, s, ids, s', a))
      && (r.Err? ==> s' == s)
  {
    hide SubSteady, ClearAll, ReleaseAll, AllLive, Freed, Cleared, SlotsOk, Sort, AdjacentEqual, CheckSubs, Others;
    SubParts(g, n, s, a);
    var sorted := Sort(ids, SubLeq);
    SortedLive(n, s.slots, ids);
    SortSize(ids);
    if ids == [] {
      NoneAllLive(s.slots);
      FreedNothing(g, n, s, a);
    } else if AllLive(s.slots, ids) {
      ClearThenRelease(g, n, s, sorted, a);
      FreedAnyOrder(g, n, s, sorted, ids, SubFreeBulk(g, n, s, ids).0, a);
    }
  }

  lemma SortSize(ids: seq<SubId>)
    ensures |Sort(ids, SubLeq)| == |ids|
  {
    SubOrder();
    SortSorts(ids, SubLeq);
    assert |multiset(Sort(ids, SubLeq))| == |multiset(ids)|;
  }

  /** `free_bulk`, with or without a mapping: what it leaves is sound, and none of the pages that
      are not the allocator's is lost. */
  lemma SubFreeBulkSafe(g: Geometry, n: nat, s: SubSys, ids: seq<SubId>, a: Abs)
    requires SubSteady(g, n, s, a) && n <= 64 && s.inner.mem.meta.generation + |ids| < U64_LIMIT
    ensures
      var (s', r) := SubFreeBulk(g, n, s, ids);
      && SubSteady(g, n, s', a) && s'.inner.mapped == s.inner.mapped && Others(s) <= Others(s')
      && s'.inner.mem.meta.generation <= s.inner.mem.meta.generation + |ids|
  {
    hide SubSteady, ClearAll, ReleaseAll, AllLive, Freed, Cleared, SlotsOk, Sort, AdjacentEqual, CheckSubs, Others;
    SubParts(g, n, s, a);
    var sorted := Sort(ids, SubLeq);
    SortedLive(n, s.slots, ids);
    SortSize(ids);
    if ids != [] && AllLive(s.slots, ids) {
      ClearThenRelease(g, n, s, sorted, a);
    }
  }

  lemma NoneAllLive(slots: Slots)
    ensures AllLive(slots, [])
  {
  }

  lemma FreedAnyOrder(g: Geometry, n: nat, s: SubSys, ids: seq<SubId>, ids': seq<SubId>, s': SubSys, a: Abs)
    requires Freed(g, n, s, ids, s', a) && forall x :: x in ids <==> x in ids'
    ensures Freed(g, n, s, ids', s', a)
  {
    hide SubSteady, Cleared, BigPages, Released, Others;
    AnyOrder(n, s.slots, ids, ids', s'.slots);
  }

  // ── Order independence ─────────────────────────────────────────────────────

  /** Memory is determined by the directory, the allocated pages, the size, the generation and the
      selector. */
  lemma MemoryDetermined(m: Mem, m': Mem)
    requires Exact(m.meta) && Exact(m'.meta)
    requires m.meta.total == m'.meta.total && m.meta.generation == m'.meta.generation
    requires AllocatedSet(m.meta) == AllocatedSet(m'.meta)
    requires m.blocks == m'.blocks && m.dirs == m'.dirs && m.active == m'.active
    ensures m == m'
  {
    hide AllocatedSet, BitAt;
    BitmapDetermined(m.meta, m'.meta);
  }

  /** The allocated pages are the allocator's and the others. */
  lemma AllocatedParts(g: Geometry, n: nat, s: SubSys, a: Abs)
    requires SubSteady(g, n, s, a)
    ensures AllocatedSet(s.inner.mem.meta) == Others(s) + BigPages(s.slots)
    ensures Exact(s.inner.mem.meta)
  {
    hide Steady, SubOk, BigPages, AllocatedSet, Consistent;
    SubParts(g, n, s, a);
    SteadyMeta(g, s.inner, a);
  }

  lemma InnerDetermined(g: Geometry, n: nat, s: SubSys, s1: SubSys, s2: SubSys, a: Abs)
    requires SubSteady(g, n, s1, a) && SubSteady(g, n, s2, a) && s1.slots == s2.slots && Others(s1) == Others(s2)
    requires
      var count := |BigPages(s.slots) - BigPages(s1.slots)|;
      Released(s.inner.mem, s1.inner.mem, count) && Released(s.inner.mem, s2.inner.mem, count)
    ensures s1.inner.mem == s2.inner.mem
  {
    hide BigPages, AllocatedSet, SubSteady, Others, Exact;
    AllocatedParts(g, n, s1, a);
    AllocatedParts(g, n, s2, a);
    MemoryDetermined(s1.inner.mem, s2.inner.mem);
  }

  lemma SameSize(ids: seq<SubId>, order: seq<SubId>)
    requires Distinct(ids) && Distinct(order) && forall x :: x in order <==> x in ids
    ensures |order| == |ids|
  {
    IdSetSize(ids);
    IdSetSize(order);
    assert (set x | x in ids) == (set x | x in order);
  }

  lemma {:induction false} IdSetSize(ids: seq<SubId>)
    requires Distinct(ids)
    ensures |set x | x in ids| == |ids|
    decreases |ids|
  {
    if ids == [] {
      assert (set x | x in ids) == {};
    } else {
      IdSetSize(ids[1..]);
      assert (set x | x in ids) == (set x | x in ids[1..]) + {ids[0]};
      assert ids[0] !in ids[1..];
    }
  }

  /** `free_bulk` leaves what freeing the same ids one by one leaves, in whatever order: the
      same slots, the same bitmap, the same generation. */
  lemma BulkIsSingleFrees(g: Geometry, n: nat, s: SubSys, ids: seq<SubId>, order: seq<SubId>, a: Abs)
    requires SubSteady(g, n, s, a) && s.inner.mapped && n <= 64 && AllLive(s.slots, ids)
    requires Distinct(order) && forall x :: x in order <==> x in ids
    requires s.inner.mem.meta.generation + |ids| < U64_LIMIT
    ensures
      var (s1, r1) := SubFreeBulk(g, n, s, ids);
      var (s2, r2) := SubFreeEach(g, n, s, order);
      r1.Ok? && r2.Ok? && s1.slots == s2.slots && s1.inner.mem == s2.inner.mem
  {
    hide SubSteady, SubFreeBulk, SubFreeEach, Freed, SubSlots.Live, SlotsOk, Released, Others, Cleared;
    SameSize(ids, order);
    SubFreeBulkExact(g, n, s, ids, a);
    SubFreeEachExact(g, n, s, order, a);
    var s1, s2 := SubFreeBulk(g, n, s, ids).0, SubFreeEach(g, n, s, order).0;
    FreedFacts(g, n, s, ids, s1, a);
    FreedFacts(g, n, s, order, s2, a);
    ClearedOnce(n, s.slots, ids, s1.slots, order, s2.slots);
    InnerDetermined(g, n, s, s1, s2, a);
  }

  // ── Everything given back ──────────────────────────────────────────────────

  /** Freeing every live sub-page, in one call or many, leaves the pager with exactly the
      pages that were never the allocator's. */
  lemma FreeAllRestores(g: Geometry, n: nat, s: SubSys, ids: seq<SubId>, s': SubSys, a: Abs)
    requires Freed(g, n, s, ids, s', a)
    requires forall x :: SubSlots.Live(s.slots, x) ==> x in ids
    ensures AllocatedSet(s'.inner.mem.meta) == Others(s)
  {
    hide Steady, BigPages, Regular, AllocatedSet, SubSlots.Live, SlotsOk, Released;
    NothingLive(n, s'.slots);
  }

  // ── Allocating in bulk ─────────────────────────────────────────────────────

  /** Distinct sub-pages, none live before, all live now, and no other change. */
  ghost predicate TookSubs(n: nat, slots: Slots, ids: seq<SubId>, slots': Slots) {
    && Distinct(ids)
    && (forall x :: x in ids ==> x.sub < n && !SubSlots.Live(slots, x))
    && forall x :: SubSlots.Live(slots', x) <==> SubSlots.Live(slots, x) || x in ids
  }

  lemma TookFirst(n: nat, slots: Slots, slots1: Slots, id: SubId, ids: seq<SubId>, slots2: Slots)
    requires id.sub < n && !SubSlots.Live(slots, id)
    requires forall x :: SubSlots.Live(slots1, x) <==> x == id || SubSlots.Live(slots, x)
    requires TookSubs(n, slots1, ids, slots2)
    ensures TookSubs(n, slots, [id] + ids, slots2)
  {
    hide SubSlots.Live;
    var all := [id] + ids;
    assert forall x :: x in all <==> x == id || x in ids;
    forall i, j | 0 <= i < j < |all|
      ensures all[i] != all[j]
    {
      assert j == 0 || all[j] in ids;
    }
  }

  lemma TookNoSubs(n: nat, slots: Slots)
    ensures TookSubs(n, slots, [], slots)
  {
  }

  lemma {:induction false} SubAllocEachSafe(g: Geometry, n: nat, s: SubSys, env: Env, count: nat, a: Abs)
    requires SubSteady(g, n, s, a) && 0 < n <= 64 && Capacity(g, s.inner.mem.meta, count)
    requires s.inner.mem.meta.generation + count < U64_LIMIT
    ensures
      var (s', ids, r) := SubAllocEach(g, n, s, env, count);
      && SubSteady(g, n, s', a) && TookSubs(n, s.slots, ids, s'.slots)
      && |ids| <= count && (r.Ok? ==> |ids| == count)
      && Others(s) <= Others(s') && (r.Ok? || s.inner.mapped ==> Others(s') == Others(s))
      && s'.inner.mem.meta.generation <= s.inner.mem.meta.generation + count
    decreases count
  {
    hide SubSteady, Steady, Capacity, SubAlloc, SubSlots.Live, TookSubs, Others;
    if count == 0 {
      TookNoSubs(n, s.slots);
    } else {
      SubAllocSafe(g, n, s, env, a, count);
      var (s1, r) := SubAlloc(g, n, s, env);
      if r.Ok? {
        SubAllocEachSafe(g, n, s1, env, count - 1, a);
        var (s2, ids, r2) := SubAllocEach(g, n, s1, env, count - 1);
        TookFirst(n, s.slots, s1.slots, r.value, ids, s2.slots);
      } else {
        TookNoSubs(n, s.slots);
      }
    }
  }

  lemma ClearedThen(n: nat, slots: Slots, ids: seq<SubId>, slots1: Slots, slots2: Slots)
    requires ids != [] && Cleared(n, slots, [ids[0]], slots1) && Cleared(n, slots1, ids[1..], slots2)
    ensures Cleared(n, slots, ids, slots2)
  {
    hide SlotsOk, SubSlots.Live;
    assert forall x :: x in ids <==> x == ids[0] || x in ids[1..];
  }

  /** The rollback, with or without a mapping: those sub-pages are gone, and the other pages are
      as they were. */
  lemma {:induction false} SubFreeAnywaySafe(g: Geometry, n: nat, s: SubSys, ids: seq<SubId>, a: Abs)
    requires SubSteady(g, n, s, a) && n <= 64 && AllLive(s.slots, ids)
    requires s.inner.mem.meta.generation + |ids| < U64_LIMIT
    ensures
      var s' := SubFreeAnyway(g, n, s, ids);
      && SubSteady(g, n, s', a) && s'.inner.mapped == s.inner.mapped && Others(s') == Others(s)
      && Cleared(n, s.slots, ids, s'.slots)
      && s'.inner.mem.meta.generation <= s.inner.mem.meta.generation + |ids|
    decreases |ids|
  {
    hide SubSteady, SubFree, AllLive, Freed, Cleared, Others, SlotsOk;
    SubParts(g, n, s, a);
    if ids == [] {
      ClearedNothing(n, s.slots);
    } else {
      FirstLive(s.slots, ids);
      SubFreeSafe(g, n, s, ids[0], a);
      var s1 := SubFree(g, n, s, ids[0]).0;
      AllLiveAfter(n, s.slots, s1.slots, ids);
      SubFreeAnywaySafe(g, n, s1, ids[1..], a);
      ClearedThen(n, s.slots, ids, s1.slots, SubFreeAnyway(g, n, s1, ids[1..]).slots);
    }
  }

  lemma TookLive(n: nat, slots: Slots, ids: seq<SubId>, slots': Slots)
    requires TookSubs(n, slots, ids, slots')
    ensures AllLive(slots', ids)
  {
    hide SubSlots.Live;
  }

  /** `alloc_bulk`: success hands out that many distinct sub-pages that were not live. Failure
      leaves exactly the sub-pages there were, even if the mapping was lost on the way; and if the
      file was mapped to begin with, exactly the other pages there were. */
  lemma SubAllocBulkExact(g: Geometry, n: nat, s: SubSys, env: Env, count: nat, a: Abs)
    requires SubSteady(g, n, s, a) && 0 < n <= 64 && Capacity(g, s.inner.mem.meta, count)
    requires s.inner.mem.meta.generation + 2 * count < U64_LIMIT
    ensures
      var (s', r) := SubAllocBulk(g, n, s, env, count);
      && SubSteady(g, n, s', a)
      && (r.Ok? ==> |r.value| == count && TookSubs(n, s.slots, r.value, s'.slots))
      && (r.Err? ==> forall x :: SubSlots.Live(s'.slots, x) <==> SubSlots.Live(s.slots, x))
      && Others(s) <= Others(s') && (r.Ok? || s.inner.mapped ==> Others(s') == Others(s))
      && s'.inner.mem.meta.generation <= s.inner.mem.meta.generation + 2 * count
  {
    hide SubSteady, Capacity, SubAllocEach, SubFreeAnyway, SubSlots.Live, TookSubs, Cleared, AllLive, Others;
    SubAllocEachSafe(g, n, s, env, count, a);
    var (s1, ids, r) := SubAllocEach(g, n, s, env, count);
    if r.Err? {
      TookLive(n, s.slots, ids, s1.slots);
      SubFreeAnywaySafe(g, n, s1, ids, a);
      UndoneSubs(n, s.slots, ids, s1.slots, SubFreeAnyway(g, n, s1, ids).slots);
    }
  }

  lemma UndoneSubs(n: nat, slots: Slots, ids: seq<SubId>, slots1: Slots, slots2: Slots)
    requires TookSubs(n, slots, ids, slots1) && Cleared(n, slots1, ids, slots2)
    ensures forall x :: SubSlots.Live(slots2, x) <==> SubSlots.Live(slots, x)
  {
    hide SubSlots.Live, SlotsOk, Shrunk;
  }
}
