/** The sub-page allocator of src/sub_allocator.rs as an object: a slot table updated in place
    and the pager it owns. Nobody else calls that pager while the allocator exists. */
module SubAllocators {
  import opened Bytes
  import opened Bits
  import opened Results
  import opened Metadata
  import opened Disks
  import opened Sorting
  import opened PagerSpec
  import opened Ownership
  import opened Safety
  import opened RawAllocation
  import opened Entries
  import opened Operations
  import opened Bulk
  import opened Runs
  import opened Accounting
  import opened Shape
  import opened Pagers
  import opened SubSlots
  import opened SubAllocation
  import opened SubSafety
  import opened SubRuns

  class SubPageAllocator {
    const pager: Pager
    const size: nat
    /** Sub-pages per big page. */
    const n: nat
    var slots: Slots

    ghost function Model(): SubSys
      reads this, pager, pager.meta
    {
      SubSys(slots, pager.State())
    }

    ghost predicate Valid()
      reads this, pager, pager.meta
    {
      && Cut(pager.g, size, n) && pager.Valid()
      && SlotsOk(n, slots) && BigPages(slots) <= AllocatedSet(pager.meta.View())
    }

    /** The safety results apply to calls that raise the generation by `cost` at most. */
    ghost predicate Good(cost: nat)
      reads this, pager, pager.meta
    {
      && pager.intact && SubSteady(pager.g, n, Model(), pager.contents.pages)
      && pager.meta.generation + cost < U64_LIMIT
    }

    constructor (pager: Pager, size: nat, n: nat)
      requires pager.Valid() && Cut(pager.g, size, n)
      ensures Valid() && this.pager == pager && this.size == size && this.n == n && slots == []
      ensures pager.intact && pager.meta.generation < U64_LIMIT ==>
                Good(0) && Others(Model()) == AllocatedSet(pager.meta.View())
    {
      hide Shows, Steady, Shaped, AllocatedSet, SubSteady, Others;
      this.pager, this.size, this.n, this.slots := pager, size, n, [];
      new;
      assert BigPages([]) == {};
      if pager.intact {
        ShowsReady(pager.g, pager.State(), pager.contents);
        NewSubSteady(pager.g, n, pager.State(), pager.contents.pages);
      }
    }

    /** `self.pager.alloc()`. */
    method Checkout(env: Env, ghost k: nat) returns (r: Result<nat>)
      requires pager.Valid() && 1 <= k && Capacity(pager.g, pager.meta.View(), k)
      modifies pager, pager.meta
      ensures pager.Valid() && (r.Ok? ==> Capacity(pager.g, pager.meta.View(), k - 1))
      ensures (pager.State(), r) == PagerSpec.Alloc(pager.g, Begin(old(pager.State())), env)
      ensures old(pager.Good(OpAlloc(env))) ==> pager.intact && pager.contents.pages == old(pager.contents.pages)
      ensures old(AllocatedSet(pager.meta.View())) <= AllocatedSet(pager.meta.View())
      ensures r.Ok? ==> r.value !in old(AllocatedSet(pager.meta.View())) && r.value in AllocatedSet(pager.meta.View())
    {
      hide Shows, Steady, Shaped, Correct, PagerSpec.Alloc, Capacity, Allowed, AllocatedSet;
      ghost var v, good := pager.contents, pager.Good(OpAlloc(env));
      AllocKeepsBigs(pager.g, pager.State(), env);
      r := pager.Alloc(env, k);
      if good {
        SameContents(pager.g, OpAlloc(env), Id(r), v, pager.State(), pager.contents);
      }
    }

    /** `self.pager.free(big)`. */
    method Release(big: nat) returns (r: Result<()>)
      requires pager.Valid()
      modifies pager, pager.meta
      ensures pager.Valid()
      ensures (pager.State(), r) == PagerSpec.Free(pager.g, Begin(old(pager.State())), big)
      ensures old(pager.Good(OpFree(big))) ==> pager.intact && pager.contents.pages == old(pager.contents.pages)
      ensures old(AllocatedSet(pager.meta.View())) - {big} <= AllocatedSet(pager.meta.View())
    {
      hide Shows, Steady, Shaped, Correct, PagerSpec.Free, Allowed, AllocatedSet;
      ghost var v, good := pager.contents, pager.Good(OpFree(big));
      FreeKeepsBigs(pager.g, pager.State(), big);
      r := pager.Free(big);
      if good {
        SameContents(pager.g, OpFree(big), Unit(r), v, pager.State(), pager.contents);
      }
    }

    method Alloc(env: Env, ghost k: nat := 1) returns (r: Result<SubId>)
      requires Valid() && 1 <= k && Capacity(pager.g, pager.meta.View(), k)
      modifies this, pager, pager.meta
      ensures Valid() && (r.Ok? ==> Capacity(pager.g, pager.meta.View(), k - 1))
      ensures (Model(), r) == SubAlloc(pager.g, n, old(Model()), env)
      ensures Picked(pager.g, n, old(Model()), env, Model(), r)
      ensures old(Good(1)) && r.Ok? ==> r.value.sub < n && !SubSlots.Live(old(slots), r.value)
      ensures old(Good(1)) ==> Good(0) && pager.meta.generation <= old(pager.meta.generation) + 1
      ensures old(Good(1)) ==> Others(old(Model())) <= Others(Model())
    {
      hide Shows, Steady, Shaped, Correct, SubSteady, PagerSpec.Alloc, SlotsOk, SubSlots.Live, Capacity, Cut, AllocatedSet, BigPages,
           Allowed, Picked;
      ghost var g, was, a := pager.g, Model(), pager.contents.pages;
      ghost var good := Good(1);
      CutBound(g, size, n);
      SubAllocPicks(g, n, was, env);
      if good {
        CapacityLess(g, pager.meta.View(), k, 1);
        AllocIsGood(g, n, was, env, a);
      }
      var full := FullMask(n);
      var i := 0;
      while i < |slots|
        invariant i <= |slots| && Model() == was && pager.contents == old(pager.contents) && pager.intact == old(pager.intact)
        invariant forall j :: 0 <= j < i ==> slots[j].None? || slots[j].value.used == full
        invariant Valid() && Capacity(g, pager.meta.View(), k)
      {
        if slots[i].Some? && slots[i].value.used != full {
          TakeBitEffect(n, slots, i);
          FirstPartialIs(slots, full, i);
          var bit := TrailingOnes(slots[i].value.used);
          slots := slots[i := Some(slots[i].value.(used := SetBit(slots[i].value.used, bit)))];
          CapacityLess(g, pager.meta.View(), k, k - 1);
          return Ok(SubId(i, bit));
        }
        i := i + 1;
      }
      FirstPartialIs(slots, full, i);
      var big := Checkout(env, k);
      if big.Err? {
        return Err(big.error);
      }
      AddBigEffect(n, slots, big.value);
      r := PlaceBig(big.value);
    }

    /** The new big page goes to the first tombstone, or to the end. */
    method PlaceBig(big: nat) returns (r: Result<SubId>)
      modifies `slots
      ensures r.Ok? && (slots, r.value) == AddBig(old(slots), big)
    {
      var i := 0;
      while i < |slots|
        invariant i <= |slots| && slots == old(slots)
        invariant forall j :: 0 <= j < i ==> slots[j].Some?
      {
        if slots[i].None? {
          FirstTombstoneIs(slots, i);
          slots := slots[i := Some(Big(big, 1))];
          return Ok(SubId(i, 0));
        }
        i := i + 1;
      }
      FirstTombstoneIs(slots, i);
      slots := slots + [Some(Big(big, 1))];
      return Ok(SubId(i, 0));
    }

    method Free(id: SubId) returns (r: Result<()>)
      requires Valid()
      modifies this, pager, pager.meta
      ensures Valid() && (Model(), r) == SubFree(pager.g, n, old(Model()), id)
      ensures old(Good(1)) ==> Good(0) && pager.meta.generation <= old(pager.meta.generation) + 1
      ensures old(Good(1)) ==> !SubSlots.Live(slots, id) && Others(Model()) == Others(old(Model()))
      ensures old(Good(1) && pager.mapped) ==> (r.Ok? <==> SubSlots.Live(old(slots), id))
      ensures !SubSlots.Live(old(slots), id) ==>
                r == Err(if id.sub >= n || id.slot >= |old(slots)| then OutOfBounds else DoubleFree)
      ensures SubSlots.Live(old(slots), id) ==> Returned(pager.g, old(Model()), id, Model())
    {
      hide Shows, Steady, Shaped, Correct, SubSteady, PagerSpec.Free, SlotsOk, SubSlots.Live, Cut, AllocatedSet, BigPages, Allowed,
           Returned;
      ghost var g, was, a := pager.g, Model(), pager.contents.pages;
      ghost var good := Good(1);
      CutBound(g, size, n);
      LiveChecks(n, slots, id);
      if SubSlots.Live(slots, id) {
        FreeReturns(g, n, was, id);
      }
      if good {
        FreeIsGood(g, n, was, id, a);
      }
      if id.sub >= n {
        return Err(OutOfBounds);
      }
      if id.slot >= |slots| {
        return Err(OutOfBounds);
      }
      if slots[id.slot].None? {
        return Err(DoubleFree);
      }
      var big := slots[id.slot].value;
      if !Bit(big.used, id.sub) {
        return Err(DoubleFree);
      }
      ClearOneEffect(n, slots, id);
      var used := ClearBit(big.used, id.sub);
      if used == 0 {
        slots := slots[id.slot := None];
        r := Release(big.id);
      } else {
        slots := slots[id.slot := Some(big.(used := used))];
        r := Ok(());
      }
    }

    // ── Bulk operations ──────────────────────────────────────────────────────

    method AllocBulk(env: Env, count: nat) returns (r: Result<seq<SubId>>)
      requires Valid() && Capacity(pager.g, pager.meta.View(), count)
      modifies this, pager, pager.meta
      ensures Valid() && (Model(), r) == SubAllocBulk(pager.g, n, old(Model()), env, count)
      ensures old(Good(2 * count)) ==> Good(0)
      ensures old(Good(2 * count)) && r.Ok? ==> |r.value| == count && TookSubs(n, old(slots), r.value, slots)
      ensures old(Good(2 * count)) && r.Err? ==>
                forall x :: SubSlots.Live(slots, x) <==> SubSlots.Live(old(slots), x)
      ensures old(Good(2 * count) && pager.mapped) ==> Others(Model()) == Others(old(Model()))
    {
      hide Shows, Steady, Shaped, SubSteady, SlotsOk, BigPages, AllocatedSet, SubSlots.Live, Capacity, Cut, SubAlloc, SubFree,
           SubAllocEach, TookSubs, Others, Picked, Returned;
      ghost var g, was, a, generation := pager.g, Model(), pager.contents.pages, pager.meta.generation;
      ghost var good := Good(2 * count);
      CutBound(g, size, n);
      if good {
        SubAllocBulkExact(g, n, was, env, count, a);
      }
      var ids, i := [], 0;
      TakingNoSubs(SubAllocEach(g, n, was, env, count));
      while i < count
        invariant i <= count && |ids| == i && Valid() && Capacity(g, pager.meta.View(), count - i)
        invariant good ==> Good(0) && pager.meta.generation <= generation + i
        invariant SubAllocEach(g, n, was, env, count) == TakingSubs(ids, SubAllocEach(g, n, Model(), env, count - i))
      {
        SubEachStep(g, n, Model(), env, count - i, ids);
        var one := Alloc(env, count - i);
        if one.Err? {
          FreeRollback(ids);
          return Err(one.error);
        }
        ids := ids + [one.value];
        i := i + 1;
      }
      SubEachStep(g, n, Model(), env, 0, ids);
      return Ok(ids);
    }

    /** The rollback: what a single free answers is ignored. */
    method FreeRollback(ids: seq<SubId>)
      requires Valid()
      modifies this, pager, pager.meta
      ensures Valid() && Model() == SubFreeAnyway(pager.g, n, old(Model()), ids)
      ensures old(Good(|ids|)) ==> Good(0)
    {
      hide Shows, Steady, Shaped, SubSteady, SlotsOk, BigPages, AllocatedSet, SubSlots.Live, Cut, SubFree, Returned;
      ghost var good, generation := Good(|ids|), pager.meta.generation;
      var i := 0;
      assert ids[0..] == ids;
      while i < |ids|
        invariant i <= |ids| && Valid()
        invariant good ==> Good(0) && pager.meta.generation <= generation + i
        invariant SubFreeAnyway(pager.g, n, old(Model()), ids) == SubFreeAnyway(pager.g, n, Model(), ids[i..])
      {
        assert ids[i..][1..] == ids[i + 1..];
        var _ := Free(ids[i]);
        i := i + 1;
      }
    }

    method FreeBulk(ids: seq<SubId>) returns (r: Result<()>)
      requires Valid()
      modifies this, pager, pager.meta
      ensures Valid() && (Model(), r) == SubFreeBulk(pager.g, n, old(Model()), ids)
      ensures old(Good(|ids|)) ==> Good(0) && Others(old(Model())) <= Others(Model())
      ensures old(Good(|ids|) && pager.mapped) ==> (r.Ok? <==> AllLive(old(slots), ids))
    {
      hide Shows, Steady, Shaped, SubSteady, SlotsOk, BigPages, AllocatedSet, SubSlots.Live, Cut, Sort, AdjacentEqual, AllLive,
           CheckSubs, ReleaseAll, Cleared, ToSet, Releasable;
      ghost var g, was, a, generation := pager.g, Model(), pager.contents.pages, pager.meta.generation;
      ghost var good := Good(|ids|);
      CutBound(g, size, n);
      SortedLive(n, slots, ids);
      if good {
        SubFreeBulkSafe(g, n, was, ids, a);
        if pager.mapped {
          SubFreeBulkExact(g, n, was, ids, a);
        }
      }
      if |ids| == 0 {
        NoneAllLive(slots);
        return Ok(());
      }
      var sorted := Sort(ids, SubLeq);
      var duplicate := AnyNeighboursEqual(sorted);
      if duplicate {
        return Err(DoubleFree);
      }
      r := CheckAll(sorted);
      if r.Err? {
        return;
      }
      ClearAllEffect(n, slots, sorted);
      ClearedOk(n, slots, sorted, ClearAll(slots, sorted).0);
      if good {
        SortSize(ids);
        EmptiedReleasable(g, n, was, sorted, a);
      }
      var emptied := ClearBits(sorted);
      r := ReleaseEach(emptied, a);
      BigsKept(was.slots, slots, emptied, was.inner.mem.meta, pager.meta.View());
    }

    method CheckAll(ids: seq<SubId>) returns (r: Result<()>)
      ensures r == CheckSubs(n, slots, ids)
    {
      var i := 0;
      assert ids[0..] == ids;
      while i < |ids|
        invariant i <= |ids| && CheckSubs(n, slots, ids) == CheckSubs(n, slots, ids[i..])
      {
        assert ids[i..][1..] == ids[i + 1..];
        var id := ids[i];
        if id.sub >= n {
          return Err(OutOfBounds);
        }
        if id.slot >= |slots| {
          return Err(OutOfBounds);
        }
        if slots[id.slot].None? {
          return Err(DoubleFree);
        }
        if !Bit(slots[id.slot].value.used, id.sub) {
          return Err(DoubleFree);
        }
        i := i + 1;
      }
      return Ok(());
    }

    /** The loop over the validated ids: the slot looked up is never a tombstone. */
    method ClearBits(ids: seq<SubId>) returns (emptied: seq<nat>)
      requires SlotsOk(n, slots) && AllLive(slots, ids)
      modifies `slots
      ensures (slots, emptied) == ClearAll(old(slots), ids)
    {
      hide SlotsOk, AllLive, Bit, ClearAll;
      emptied := [];
      var i := 0;
      assert ids[0..] == ids;
      ClearedSoFarNone(ClearAll(slots, ids));
      while i < |ids|
        invariant i <= |ids| && SlotsOk(n, slots) && AllLive(slots, ids[i..])
        invariant ClearAll(old(slots), ids) == ClearedSoFar(emptied, ClearAll(slots, ids[i..]))
      {
        assert ids[i..][1..] == ids[i + 1..] && ids[i..][0] == ids[i];
        AllLiveTail(n, slots, ids[i..]);
        ClearOneEffect(n, slots, ids[i]);
        ClearAllStep(slots, ids[i..], emptied);
        var id := ids[i];
        var big := slots[id.slot].value;
        var used := ClearBit(big.used, id.sub);
        if used == 0 {
          slots := slots[id.slot := None];
          emptied := emptied + [big.id];
        } else {
          slots := slots[id.slot := Some(big.(used := used))];
        }
        i := i + 1;
      }
      assert ids[i..] == [];
      ClearAllStep(slots, [], emptied);
    }

    method ReleaseEach(bigs: seq<nat>, ghost a: Abs) returns (r: Result<()>)
      requires pager.Valid()
      modifies pager, pager.meta
      ensures pager.Valid() && (pager.State(), r) == ReleaseAll(pager.g, old(pager.State()), bigs)
      ensures old(AllocatedSet(pager.meta.View())) - ToSet(bigs) <= AllocatedSet(pager.meta.View())
      ensures old(pager.intact && pager.contents.pages == a && Releasable(pager.g, pager.State(), bigs, a)) ==>
                pager.intact && pager.contents.pages == a
    {
      hide Shows, Steady, Shaped, PagerSpec.Free, AllocatedSet, Releasable, Allowed;
      ghost var good := pager.intact && pager.contents.pages == a && Releasable(pager.g, pager.State(), bigs, a);
      var i := 0;
      assert bigs[0..] == bigs;
      while i < |bigs|
        invariant i <= |bigs| && pager.Valid()
        invariant ReleaseAll(pager.g, old(pager.State()), bigs) == ReleaseAll(pager.g, pager.State(), bigs[i..])
        invariant old(AllocatedSet(pager.meta.View())) - ToSet(bigs) <= AllocatedSet(pager.meta.View())
        invariant good ==> pager.intact && pager.contents.pages == a && Releasable(pager.g, pager.State(), bigs[i..], a)
      {
        assert bigs[i..][1..] == bigs[i + 1..] && bigs[i..][0] == bigs[i] && bigs[i] in bigs;
        if good {
          ReleaseStep(pager.g, pager.State(), bigs[i..], a);
        }
        r := Release(bigs[i]);
        if r.Err? {
          return;
        }
        i := i + 1;
      }
      return Ok(());
    }

    // ── Page access ──────────────────────────────────────────────────────────

    method Get(id: SubId) returns (r: Result<seq<byte>>)
      requires Valid()
      ensures InPage(size, n, Model(), id) && r == SubRead(size, n, Model(), id)
    {
      hide Shows, Shaped, SlotsOk, BigPages, AllocatedSet, Cut;
      ValidInPage(pager.g, size, n, Model(), id);
      if id.sub >= n || id.slot >= |slots| || slots[id.slot].None? {
        return Err(OutOfBounds);
      }
      var page := pager.GetPage(slots[id.slot].value.id);
      if page.Err? {
        return Err(page.error);
      }
      var start := id.sub * size;
      return Ok(page.value[start..start + size]);
    }

    /** A store of the whole sub-page through `get_mut`. */
    method Write(id: SubId, data: seq<byte>) returns (r: Result<()>)
      requires Valid() && |data| == size
      modifies pager
      ensures InPage(size, n, old(Model()), id)
      ensures Valid() && (Model(), r) == SubWrite(size, n, old(Model()), id, data)
      ensures old(Good(1)) ==> Good(1)
    {
      hide Shows, Shaped, SlotsOk, BigPages, AllocatedSet, Cut, SubSteady, Allowed, Correct, Store;
      ghost var g, was, v := pager.g, Model(), pager.contents;
      ghost var good := Good(1);
      ValidInPage(g, size, n, was, id);
      if good {
        WriteIsGood(g, size, n, was, id, data, v.pages);
      }
      if id.sub >= n || id.slot >= |slots| || slots[id.slot].None? {
        return Err(OutOfBounds);
      }
      var big := slots[id.slot].value.id;
      BigPageSize(g, was, id);
      var page := Spliced(MappedPage(pager.disk, big), Offset(size, id), data);
      r := pager.WritePage(big, page);
      if good {
        SameContents(g, OpWriteRegular(big, page), Unit(r), v, pager.State(), pager.contents);
      }
    }
  }

  /** The page of an occupied slot is in the file, and one page long. */
  lemma BigPageSize(g: Geometry, s: SubSys, id: SubId)
    requires Shaped(g, s.inner) && BigPages(s.slots) <= AllocatedSet(s.inner.mem.meta)
    requires id.slot < |s.slots| && s.slots[id.slot].Some?
    ensures |PageOf(s, id)| == g.pageSize
  {
    hide Shaped, AllocatedSet, Allocated;
    assert BigOf(s.slots, id) in BigPages(s.slots);
    InAllocatedSet(s.inner.mem.meta, BigOf(s.slots, id));
    AllocatedBelow(s.inner.mem.meta, BigOf(s.slots, id));
    ShapedBounds(g, s.inner);
    ShapedSized(g, s.inner);
    WholePageAt(g, s.inner.disk, BigOf(s.slots, id));
  }

  lemma AllocatedBelow(m: Meta, id: nat)
    requires Allocated(m, id)
    ensures id < m.total
  {
  }

  lemma ValidInPage(g: Geometry, size: nat, n: nat, s: SubSys, id: SubId)
    requires Shaped(g, s.inner) && BigPages(s.slots) <= AllocatedSet(s.inner.mem.meta) && Cut(g, size, n)
    ensures InPage(size, n, s, id)
  {
    hide Shaped, AllocatedSet, BigPages, Cut, PageOf, Offset;
    if Addressable(n, s.slots, id) {
      BigPageSize(g, s, id);
      OffsetInside(g, size, n, id);
    }
  }

  /** Sub-pages taken before a sequence of single allocations. */
  function TakingSubs(ids: seq<SubId>, r: (SubSys, seq<SubId>, Result<()>)): (SubSys, seq<SubId>, Result<()>) {
    (r.0, ids + r.1, r.2)
  }

  lemma TakingNoSubs(r: (SubSys, seq<SubId>, Result<()>))
    ensures TakingSubs([], r) == r
  {
    assert [] + r.1 == r.1;
  }

  lemma SubEachStep(g: Geometry, n: nat, s: SubSys, env: Env, count: nat, ids: seq<SubId>)
    ensures
      TakingSubs(ids, SubAllocEach(g, n, s, env, count)) ==
      if count == 0 then (s, ids, Ok(()))
      else
        var (s1, r) := SubAlloc(g, n, s, env);
        match r
        case Err(e) => (s1, ids, Err(e))
        case Ok(id) => TakingSubs(ids + [id], SubAllocEach(g, n, s1, env, count - 1))
  {
    hide SubAlloc;
    assert ids + [] == ids;
    if count > 0 && SubAlloc(g, n, s, env).1.Ok? {
      var (s1, r) := SubAlloc(g, n, s, env);
      var rest := SubAllocEach(g, n, s1, env, count - 1).1;
      assert ids + ([r.value] + rest) == ids + [r.value] + rest;
    }
  }

  function ClearedSoFar(emptied: seq<nat>, r: (Slots, seq<nat>)): (Slots, seq<nat>) {
    (r.0, emptied + r.1)
  }

  lemma ClearedSoFarNone(r: (Slots, seq<nat>))
    ensures ClearedSoFar([], r) == r
  {
    assert [] + r.1 == r.1;
  }

  lemma ClearAllStep(slots: Slots, ids: seq<SubId>, emptied: seq<nat>)
    ensures ids == [] ==> ClearedSoFar(emptied, ClearAll(slots, ids)) == (slots, emptied)
    ensures ids != [] ==>
              var (slots1, one) := ClearOne(slots, ids[0]);
              ClearedSoFar(emptied, ClearAll(slots, ids)) ==
              ClearedSoFar(if one.Some? then emptied + [one.value] else emptied, ClearAll(slots1, ids[1..]))
  {
    hide ClearOne;
    assert emptied + [] == emptied;
    if ids != [] {
      var (slots1, one) := ClearOne(slots, ids[0]);
      var rest := ClearAll(slots1, ids[1..]).1;
      if one.Some? {
        assert emptied + ([one.value] + rest) == emptied + [one.value] + rest;
      } else {
        assert [] + rest == rest;
      }
    }
  }

  /** Distinct pages of a pager between calls that the directory does not refer to. */
  ghost predicate Releasable(g: Geometry, s: Sys, bigs: seq<nat>, a: Abs) {
    && Steady(g, s, a) && Distinct(bigs) && ToSet(bigs) <= Regular(Held(s))
    && s.mem.meta.generation + |bigs| < U64_LIMIT
  }

  lemma FreeAllowed(g: Geometry, s: Sys, id: nat, a: Abs)
    requires Steady(g, s, a) && id in Regular(Held(s)) && s.mem.meta.generation + 1 < U64_LIMIT
    ensures Allowed(g, s, OpFree(id))
  {
    hide Steady, Regular, Capacity, Referenced, Exact, Allocated, EntryOf;
    RegularFacts(g, s, a, id);
    ShownInContents(g, s, a, 0);
    CapacityNone(g, s, a);
  }

  lemma ReleaseStep(g: Geometry, s: Sys, bigs: seq<nat>, a: Abs)
    requires Releasable(g, s, bigs, a) && bigs != []
    ensures Allowed(g, s, OpFree(bigs[0]))
    ensures Releasable(g, PagerSpec.Free(g, Begin(s), bigs[0]).0, bigs[1..], a)
  {
    hide Steady, Regular, AllocatedSet, PagerSpec.Free, Allowed, ToSet, Distinct;
    FirstOfDistinct(bigs);
    FreeAllowed(g, s, bigs[0], a);
    InnerFree(g, s, bigs[0], a);
  }

  lemma EmptiedReleasable(g: Geometry, n: nat, s: SubSys, ids: seq<SubId>, a: Abs)
    requires SubSteady(g, n, s, a) && n <= 64 && AllLive(s.slots, ids)
    requires s.inner.mem.meta.generation + |ids| < U64_LIMIT
    ensures Releasable(g, s.inner, ClearAll(s.slots, ids).1, a)
  {
    hide SubSteady, SubOk, Steady, Regular, AllocatedSet, BigPages, ClearAll, AllLive, Cleared, SlotsOk, ToSet;
    SubParts(g, n, s, a);
    ClearAllEffect(n, s.slots, ids);
    EmptiedRegular(n, s, ClearAll(s.slots, ids).1, ClearAll(s.slots, ids).0);
  }

  /** The big pages that are left are still allocated. */
  lemma BigsKept(slots: Slots, slots': Slots, emptied: seq<nat>, m: Meta, m': Meta)
    requires BigPages(slots) <= AllocatedSet(m) && BigPages(slots') <= BigPages(slots)
    requires ToSet(emptied) == BigPages(slots) - BigPages(slots')
    requires AllocatedSet(m) - ToSet(emptied) <= AllocatedSet(m')
    ensures BigPages(slots') <= AllocatedSet(m')
  {
    hide BigPages, AllocatedSet, ToSet;
  }

  lemma ClearedOk(n: nat, slots: Slots, ids: seq<SubId>, slots': Slots)
    requires Cleared(n, slots, ids, slots')
    ensures SlotsOk(n, slots')
  {
  }

  /** Calls on regular pages leave the protected pages alone. */
  lemma SameContents(g: Geometry, op: Op, reply: Reply, v: View, s: Sys, v': View)
    requires Correct(g, op, reply, v, s, v') && (op.OpAlloc? || op.OpFree? || op.OpWriteRegular?)
    ensures v'.pages == v.pages
  {
    hide Shows, TraceOk;
  }

  lemma FirstPartialIs(slots: Slots, full: nat, i: nat)
    requires i <= |slots|
    requires forall j :: 0 <= j < i ==> slots[j].None? || slots[j].value.used == full
    requires i < |slots| ==> slots[i].Some? && slots[i].value.used != full
    ensures FirstPartial(slots, full) == i
  {
  }

  lemma FirstTombstoneIs(slots: Slots, i: nat)
    requires i <= |slots| && (forall j :: 0 <= j < i ==> slots[j].Some?)
    requires i < |slots| ==> slots[i].None?
    ensures FirstTombstone(slots) == i
  {
  }

  /** In any state, `alloc` returns a page that was free and forgets none that was taken. */
  lemma AllocKeepsBigs(g: Geometry, s: Sys, env: Env)
    requires Shaped(g, s)
    ensures
      var (s', r) := PagerSpec.Alloc(g, Begin(s), env);
      && AllocatedSet(s.mem.meta) <= AllocatedSet(s'.mem.meta)
      && (r.Ok? ==> r.value !in AllocatedSet(s.mem.meta) && r.value in AllocatedSet(s'.mem.meta))
  {
    hide Shaped, AllocatedSet, AllocRaw, PagerSpec.Commit;
    ShapedExact(g, s);
    RawKeepsBigs(g, Begin(s), env);
    var (s1, r) := AllocRaw(g, Begin(s), env);
    CommitFrame(g, s1);
    GenerationOnly(s1.mem.meta);
  }

  lemma ShapedExact(g: Geometry, s: Sys)
    requires Shaped(g, s)
    ensures Exact(s.mem.meta)
  {
  }

  lemma RawKeepsBigs(g: Geometry, s: Sys, env: Env)
    requires Exact(s.mem.meta)
    ensures
      var (s', r) := AllocRaw(g, s, env);
      && AllocatedSet(s.mem.meta) <= AllocatedSet(s'.mem.meta)
      && (r.Ok? ==> r.value !in AllocatedSet(s.mem.meta) && r.value in AllocatedSet(s'.mem.meta))
  {
    hide Exact, FreeSlot, Mark, GrowTo, AllocatedSet, Grow, BitAt;
    var m := s.mem.meta;
    GrowMemory(g, s, env);
    GrowKeepsAllocated(m, 2 * m.total);
    MarkFree(m);
    MarkFree(GrowTo(m, 2 * m.total));
  }

  lemma MarkFree(m: Meta)
    requires Exact(m)
    ensures
      FreeSlot(m).Some? ==>
        var id := FreeSlot(m).value;
        id !in AllocatedSet(m) && AllocatedSet(Mark(m, id)) == AllocatedSet(m) + {id}
  {
    hide Exact, FreeSlot, Mark, BitAt;
    FreeSlotIsSmallest(m);
    if FreeSlot(m).Some? {
      MarkAllocates(m, FreeSlot(m).value);
      InAllocatedSet(m, FreeSlot(m).value);
    }
  }

  lemma FreeKeepsBigs(g: Geometry, s: Sys, id: nat)
    requires Shaped(g, s)
    ensures AllocatedSet(s.mem.meta) - {id} <= AllocatedSet(PagerSpec.Free(g, Begin(s), id).0.mem.meta)
  {
    hide Shaped, AllocatedSet, Exact, Unmark, PagerSpec.Commit, Allocated;
    ShapedExact(g, s);
    if FIRST_DATA_PAGE <= id && Allocated(s.mem.meta, id) {
      UnmarkFrees(s.mem.meta, id);
      var s1 := WithMeta(Begin(s), Unmark(s.mem.meta, id));
      CommitFrame(g, s1);
      GenerationOnly(s1.mem.meta);
    }
  }

  /** A good `alloc` is an allowed pager call, and what it leaves is good. */
  lemma AllocIsGood(g: Geometry, n: nat, s: SubSys, env: Env, a: Abs)
    requires SubSteady(g, n, s, a) && 0 < n <= 64 && s.inner.mem.meta.generation + 1 < U64_LIMIT
    requires Capacity(g, s.inner.mem.meta, 1)
    ensures Allowed(g, s.inner, OpAlloc(env))
    ensures
      var (s', r) := SubAlloc(g, n, s, env);
      && (r.Ok? ==> r.value.sub < n && !SubSlots.Live(s.slots, r.value))
      && SubSteady(g, n, s', a) && Others(s) <= Others(s')
      && s'.inner.mem.meta.generation <= s.inner.mem.meta.generation + 1
  {
    hide SubSteady, SubAlloc, Capacity, SubOk, Steady, SubSlots.Live, Others;
    SubAllocSafe(g, n, s, env, a, 1);
    SubParts(g, n, s, a);
    ShownInContents(g, s.inner, a, 0);
  }

  lemma FreeIsGood(g: Geometry, n: nat, s: SubSys, id: SubId, a: Abs)
    requires SubSteady(g, n, s, a) && 0 < n <= 64 && s.inner.mem.meta.generation + 1 < U64_LIMIT
    ensures id.slot < |s.slots| && s.slots[id.slot].Some? ==> Allowed(g, s.inner, OpFree(s.slots[id.slot].value.id))
    ensures
      var (s', r) := SubFree(g, n, s, id);
      && SubSteady(g, n, s', a) && !SubSlots.Live(s'.slots, id) && Others(s') == Others(s)
      && (s.inner.mapped ==> (r.Ok? <==> SubSlots.Live(s.slots, id)))
      && s'.inner.mem.meta.generation <= s.inner.mem.meta.generation + 1
  {
    hide SubSteady, SubFree, SubOk, Steady, SubSlots.Live, Freed, BigPages, Others, Regular, SlotsOk, Shrunk, AllocatedSet, Allowed;
    SubParts(g, n, s, a);
    SubFreeSafe(g, n, s, id, a);
    if id.slot < |s.slots| && s.slots[id.slot].Some? {
      BigIsRegular(n, s, id);
      FreeAllowed(g, s.inner, BigOf(s.slots, id), a);
    }
  }

  lemma WriteIsGood(g: Geometry, size: nat, n: nat, s: SubSys, id: SubId, data: seq<byte>, a: Abs)
    requires SubSteady(g, n, s, a) && s.inner.mem.meta.generation + 1 < U64_LIMIT
    requires Cut(g, size, n) && |data| == size && InPage(size, n, s, id)
    ensures SubSteady(g, n, SubWrite(size, n, s, id, data).0, a)
    ensures id.slot < |s.slots| && s.slots[id.slot].Some? ==>
              forall page: Page :: |page| == g.pageSize ==> Allowed(g, s.inner, OpWriteRegular(s.slots[id.slot].value.id, page))
  {
    hide SubSteady, SubWrite, SubOk, Steady, BigPages, Cut, InPage, Capacity, Referenced;
    SubParts(g, n, s, a);
    ShownInContents(g, s.inner, a, 0);
    SubWriteSafe(g, size, n, s, id, data, a);
    CapacityNone(g, s.inner, a);
    if id.slot < |s.slots| && s.slots[id.slot].Some? {
      BigIsRegular(n, s, id);
    }
  }

  lemma CapacityNone(g: Geometry, s: Sys, a: Abs)
    requires Steady(g, s, a)
    ensures Capacity(g, s.mem.meta, 0)
  {
    hide Steady, Exact, Owned, DirShape, Doubled;
    SteadyMeta(g, s, a);
  }
}
