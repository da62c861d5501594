/** The bytes of sub-pages: a call changes only those it writes to, and what was last written to a
    sub-page is what it reads until it is written to again or freed. */
module SubContents {
  import opened Bytes
  import opened Bits
  import opened Results
  import opened Metadata
  import opened Sorting
  import opened PagerSpec
  import opened Ownership
  import opened Safety
  import opened RawAllocation
  import opened Operations
  import opened Runs
  import opened Accounting
  import opened Contents
  import opened SubSlots
  import opened SubAllocation
  import opened SubSafety
  import opened SubRuns

  // ── The pager's side ───────────────────────────────────────────────────────

  /** Pages the directory refers to in memory it refers to on disk. */
  lemma HeldRegular(g: Geometry, s: Sys, a: Abs)
    requires Steady(g, s, a)
    ensures Regular(Held(s)) <= Regular(s.mem) && |s.mem.blocks| == |s.mem.dirs|
  {
    hide Durable, Consistent, Referenced, AllocatedSet;
    SteadyMeta(g, s, a);
    LagReferenced(s.mem, s.dur);
    SameDirectory(s.dur, Held(s));
    ConsistentOwned(g, s.mem);
  }

  /** Regular pages keep their bytes over `alloc` and `free`. */
  lemma AllocKeeps(g: Geometry, s: Sys, env: Env, a: Abs, p: nat)
    requires Steady(g, s, a) && p in Regular(Held(s))
    ensures MappedPage(Alloc(g, Begin(s), env).0.disk, p) == MappedPage(s.disk, p)
  {
    hide Steady, Regular, Alloc;
    HeldRegular(g, s, a);
    RegularKept(g, s, OpAlloc(env), a, p);
  }

  lemma FreeKeeps(g: Geometry, s: Sys, id: nat, a: Abs, p: nat)
    requires Steady(g, s, a) && p in Regular(Held(s))
    ensures MappedPage(Free(g, Begin(s), id).0.disk, p) == MappedPage(s.disk, p)
  {
    hide Steady, Regular, Free;
    HeldRegular(g, s, a);
    RegularKept(g, s, OpFree(id), a, p);
  }

  lemma {:induction false} ReleaseKeeps(g: Geometry, s: Sys, bigs: seq<nat>, a: Abs, p: nat)
    requires Steady(g, s, a) && Distinct(bigs) && ToSet(bigs) <= Regular(Held(s))
    requires s.mem.meta.generation + |bigs| < U64_LIMIT
    requires p in Regular(Held(s)) && p !in ToSet(bigs)
    ensures MappedPage(ReleaseAll(g, s, bigs).0.disk, p) == MappedPage(s.disk, p)
    decreases |bigs|
  {
    hide Steady, Regular, AllocatedSet, Free, ReleaseAll, ToSet, Distinct, MappedPage, Released;
    ReleaseUnfolds(g, s, bigs);
    if bigs != [] {
      FirstOfDistinct(bigs);
      InnerFree(g, s, bigs[0], a);
      FreeKeeps(g, s, bigs[0], a, p);
      var (s1, r) := Free(g, Begin(s), bigs[0]);
      if r.Ok? {
        ReleaseKeeps(g, s1, bigs[1..], a, p);
      }
    }
  }

  // ── One call ───────────────────────────────────────────────────────────────

  /** The sub-page is live before and after, in the same big page, and that page has the same bytes. */
  ghost predicate Kept(s: SubSys, s': SubSys, x: SubId) {
    && SubSlots.Live(s.slots, x) && SubSlots.Live(s'.slots, x)
    && BigOf(s'.slots, x) == BigOf(s.slots, x) && PageOf(s', x) == PageOf(s, x)
  }

  /** Every live sub-page not in `gone` is kept. */
  ghost predicate KeepsLive(s: SubSys, s': SubSys, gone: set<SubId>) {
    forall x :: SubSlots.Live(s.slots, x) && x !in gone ==> Kept(s, s', x)
  }

  lemma KeepsTwice(s: SubSys, t: SubSys, u: SubSys, gone: set<SubId>, more: set<SubId>)
    requires KeepsLive(s, t, gone) && KeepsLive(t, u, more)
    ensures KeepsLive(s, u, gone + more)
  {
    hide SubSlots.Live, BigOf, PageOf;
    forall x | SubSlots.Live(s.slots, x) && x !in gone + more
      ensures Kept(s, u, x)
    {
      assert Kept(s, t, x) && Kept(t, u, x);
    }
  }

  lemma KeepsSelf(s: SubSys)
    ensures KeepsLive(s, s, {})
  {
  }

  lemma LiveBig(g: Geometry, n: nat, s: SubSys, x: SubId, a: Abs)
    requires SubSteady(g, n, s, a) && SubSlots.Live(s.slots, x)
    ensures x.slot < |s.slots| && s.slots[x.slot].Some?
    ensures BigOf(s.slots, x) in BigPages(s.slots) && BigOf(s.slots, x) in Regular(Held(s.inner))
  {
    hide Steady, Regular, SlotsOk;
  }

  /** The slots of live sub-pages keep their big pages. */
  ghost predicate BigsStay(slots: Slots, slots': Slots) {
    forall x :: SubSlots.Live(slots, x) && SubSlots.Live(slots', x) ==> BigOf(slots', x) == BigOf(slots, x)
  }

  lemma SameBigsStay(slots: Slots, slots': Slots)
    requires SameBigs(slots, slots')
    ensures BigsStay(slots, slots')
  {
    hide Bit;
  }

  lemma FilledStay(slots: Slots, i: nat, big: nat)
    requires FirstHole(slots, i)
    ensures BigsStay(slots, Filled(slots, i, big))
  {
    hide Bit;
    assert forall j: nat :: j < |slots| && j != i ==> Filled(slots, i, big)[j] == slots[j];
  }

  lemma ShrunkStay(slots: Slots, slots': Slots)
    requires Shrunk(slots, slots')
    ensures BigsStay(slots, slots')
  {
    hide Bit;
  }

  lemma KeptByPage(s: SubSys, s': SubSys, x: SubId)
    requires BigsStay(s.slots, s'.slots) && SubSlots.Live(s.slots, x) && SubSlots.Live(s'.slots, x)
    requires MappedPage(s'.inner.disk, BigOf(s.slots, x)) == MappedPage(s.inner.disk, BigOf(s.slots, x))
    ensures Kept(s, s', x)
  {
    hide Bit;
  }

  lemma SubAllocKeeps(g: Geometry, n: nat, s: SubSys, env: Env, a: Abs)
    requires SubSteady(g, n, s, a) && 0 < n <= 64
    requires Capacity(g, s.inner.mem.meta, 1) && s.inner.mem.meta.generation + 1 < U64_LIMIT
    ensures KeepsLive(s, SubAlloc(g, n, s, env).0, {})
  {
    hide SubSteady, SubAlloc, SubSlots.Live, SlotsOk, Spare, Capacity, Others, Alloc, BigPages, FirstSpare, FirstHole,
         SameBigs, Filled, Kept, BigsStay, MappedPage, BigOf, Steady, Regular;
    SubParts(g, n, s, a);
    SubAllocSafe(g, n, s, env, a, 1);
    SubAllocPicks(g, n, s, env);
    var (s', r) := SubAlloc(g, n, s, env);
    if exists x :: Spare(n, s.slots, x) {
      SameBigsStay(s.slots, s'.slots);
    } else if r.Ok? {
      FilledStay(s.slots, r.value.slot, Alloc(g, Begin(s.inner), env).1.value);
    } else {
      SelfStay(s.slots);
    }
    forall x | SubSlots.Live(s.slots, x)
      ensures Kept(s, s', x)
    {
      LiveBig(g, n, s, x, a);
      AllocKeeps(g, s.inner, env, a, BigOf(s.slots, x));
      KeptByPage(s, s', x);
    }
  }

  lemma SelfStay(slots: Slots)
    ensures BigsStay(slots, slots)
  {
  }

  lemma SubFreeKeeps(g: Geometry, n: nat, s: SubSys, id: SubId, a: Abs)
    requires SubSteady(g, n, s, a) && n <= 64 && s.inner.mem.meta.generation + 1 < U64_LIMIT
    ensures KeepsLive(s, SubFree(g, n, s, id).0, {id})
  {
    hide SubSteady, CheckSub, ClearOne, SubSlots.Live, SlotsOk, Others, Free, BigPages, Kept, BigsStay, MappedPage, BigOf,
         Steady, Regular, Cleared, Shrunk;
    SubParts(g, n, s, a);
    LiveChecks(n, s.slots, id);
    SelfStay(s.slots);
    var (s', r) := SubFree(g, n, s, id);
    if SubSlots.Live(s.slots, id) {
      ClearOneEffect(n, s.slots, id);
      ShrunkStay(s.slots, s'.slots);
    }
    forall x | SubSlots.Live(s.slots, x) && x !in {id}
      ensures Kept(s, s', x)
    {
      LiveBig(g, n, s, x, a);
      if s'.inner != s.inner {
        FreeKeeps(g, s.inner, ClearOne(s.slots, id).1.value, a, BigOf(s.slots, x));
      }
      KeptByPage(s, s', x);
    }
  }

  lemma StaysBig(g: Geometry, n: nat, slots: Slots, x: SubId)
    requires SubSlots.Live(slots, x)
    ensures x.slot < |slots| && slots[x.slot].Some? && BigOf(slots, x) in BigPages(slots)
  {
    hide Bit;
  }

  lemma ClearedFacts(n: nat, slots: Slots, ids: seq<SubId>, slots': Slots)
    requires Cleared(n, slots, ids, slots')
    ensures SlotsOk(n, slots') && Shrunk(slots, slots')
    ensures forall x :: SubSlots.Live(slots', x) <==> SubSlots.Live(slots, x) && x !in ids
  {
    hide SlotsOk, Shrunk, SubSlots.Live;
  }

  /** Clearing bits and releasing the emptied big pages. */
  lemma ReleasedKeeps(g: Geometry, n: nat, s: SubSys, ids: seq<SubId>, a: Abs)
    requires SubSteady(g, n, s, a) && n <= 64 && AllLive(s.slots, ids)
    requires s.inner.mem.meta.generation + |ids| < U64_LIMIT
    ensures
      var (slots, emptied) := ClearAll(s.slots, ids);
      KeepsLive(s, SubSys(slots, ReleaseAll(g, s.inner, emptied).0), ToSubSet(ids))
  {
    hide SubSteady, ClearAll, SubSlots.Live, SlotsOk, SubOk, BigPages, Kept, BigsStay, MappedPage, BigOf, AllLive,
         Steady, Regular, Cleared, Shrunk, ReleaseAll, ToSet, Distinct, Held;
    SubParts(g, n, s, a);
    ClearAllEffect(n, s.slots, ids);
    var (slots, emptied) := ClearAll(s.slots, ids);
    var s' := SubSys(slots, ReleaseAll(g, s.inner, emptied).0);
    ClearedFacts(n, s.slots, ids, slots);
    ShrunkStay(s.slots, slots);
    EmptiedRegular(n, s, emptied, slots);
    forall x | SubSlots.Live(s.slots, x) && x !in ToSubSet(ids)
      ensures Kept(s, s', x)
    {
      LiveBig(g, n, s, x, a);
      StaysBig(g, n, slots, x);
      SameBig(s.slots, slots, x);
      ReleaseKeeps(g, s.inner, emptied, a, BigOf(s.slots, x));
      KeptByPage(s, s', x);
    }
  }

  lemma SameBig(slots: Slots, slots': Slots, x: SubId)
    requires BigsStay(slots, slots') && SubSlots.Live(slots, x) && SubSlots.Live(slots', x)
    ensures x.slot < |slots| && slots[x.slot].Some? && x.slot < |slots'| && slots'[x.slot].Some?
    ensures BigOf(slots', x) == BigOf(slots, x)
  {
    hide Bit;
  }

  function ToSubSet(ids: seq<SubId>): set<SubId> {
    set x | x in ids
  }

  lemma SubFreeBulkKeeps(g: Geometry, n: nat, s: SubSys, ids: seq<SubId>, a: Abs)
    requires SubSteady(g, n, s, a) && n <= 64 && s.inner.mem.meta.generation + |ids| < U64_LIMIT
    ensures KeepsLive(s, SubFreeBulk(g, n, s, ids).0, ToSubSet(ids))
  {
    hide SubSteady, ClearAll, ReleaseAll, AllLive, SlotsOk, Sort, AdjacentEqual, CheckSubs, Kept, SubSlots.Live;
    SubParts(g, n, s, a);
    var sorted := Sort(ids, SubLeq);
    SortedLive(n, s.slots, ids);
    SortSize(ids);
    KeepsSelf(s);
    if ids != [] && AllLive(s.slots, ids) {
      ReleasedKeeps(g, n, s, sorted, a);
      SortedSet(ids);
    }
  }

  lemma SortedSet(ids: seq<SubId>)
    ensures ToSubSet(Sort(ids, SubLeq)) == ToSubSet(ids)
  {
    hide Sort;
    forall x
      ensures x in Sort(ids, SubLeq) <==> x in ids
    {
      SortMembers(ids, SubLeq, x);
    }
  }

  lemma {:induction false} EachKeeps(g: Geometry, n: nat, s: SubSys, env: Env, count: nat, a: Abs)
    requires SubSteady(g, n, s, a) && 0 < n <= 64 && Capacity(g, s.inner.mem.meta, count)
    requires s.inner.mem.meta.generation + count < U64_LIMIT
    ensures KeepsLive(s, SubAllocEach(g, n, s, env, count).0, {})
    decreases count
  {
    hide SubSteady, SubAlloc, SubSlots.Live, Capacity, Others, KeepsLive;
    KeepsSelf(s);
    if count > 0 {
      CapacityLess(g, s.inner.mem.meta, count, 1);
      SubAllocKeeps(g, n, s, env, a);
      SubAllocSafe(g, n, s, env, a, count);
      var (s1, r) := SubAlloc(g, n, s, env);
      if r.Ok? {
        EachKeeps(g, n, s1, env, count - 1, a);
        KeepsThen(s, s1, SubAllocEach(g, n, s1, env, count - 1).0, {}, {}, {});
      }
    }
  }

  lemma KeepsThen(s: SubSys, t: SubSys, u: SubSys, gone: set<SubId>, more: set<SubId>, all: set<SubId>)
    requires KeepsLive(s, t, gone) && KeepsLive(t, u, more) && gone <= all && more <= all
    ensures KeepsLive(s, u, all)
  {
    hide Kept, SubSlots.Live;
    KeepsTwice(s, t, u, gone, more);
  }

  lemma {:induction false} AnywayKeeps(g: Geometry, n: nat, s: SubSys, ids: seq<SubId>, a: Abs)
    requires SubSteady(g, n, s, a) && n <= 64 && AllLive(s.slots, ids)
    requires s.inner.mem.meta.generation + |ids| < U64_LIMIT
    ensures KeepsLive(s, SubFreeAnyway(g, n, s, ids), ToSubSet(ids))
    decreases |ids|
  {
    hide SubSteady, SubFree, AllLive, Cleared, Others, SlotsOk, KeepsLive, Freed, SubSlots.Live;
    if ids == [] {
      KeepsSelf(s);
      assert ToSubSet([]) == {};
    } else {
      FirstLive(s.slots, ids);
      SubFreeKeeps(g, n, s, ids[0], a);
      SubFreeSafe(g, n, s, ids[0], a);
      var s1 := SubFree(g, n, s, ids[0]).0;
      AllLiveAfter(n, s.slots, s1.slots, ids);
      AnywayKeeps(g, n, s1, ids[1..], a);
      assert ids[0] in ids && forall x :: x in ids[1..] ==> x in ids;
      KeepsThen(s, s1, SubFreeAnyway(g, n, s1, ids[1..]), {ids[0]}, ToSubSet(ids[1..]), ToSubSet(ids));
    }
  }

  lemma SubAllocBulkKeeps(g: Geometry, n: nat, s: SubSys, env: Env, count: nat, a: Abs)
    requires SubSteady(g, n, s, a) && 0 < n <= 64 && Capacity(g, s.inner.mem.meta, count)
    requires s.inner.mem.meta.generation + 2 * count < U64_LIMIT
    ensures KeepsLive(s, SubAllocBulk(g, n, s, env, count).0, {})
  {
    hide SubSteady, SubAllocEach, SubFreeAnyway, KeepsLive, Capacity, Others, TookSubs, AllLive, SubSlots.Live;
    EachKeeps(g, n, s, env, count, a);
    SubAllocEachSafe(g, n, s, env, count, a);
    var (s1, ids, r) := SubAllocEach(g, n, s, env, count);
    if r.Err? {
      TookAreLive(n, s.slots, ids, s1.slots);
      AnywayKeeps(g, n, s1, ids, a);
      KeepsFresh(n, s, s1, SubFreeAnyway(g, n, s1, ids), ids);
    }
  }

  lemma TookAreLive(n: nat, slots: Slots, ids: seq<SubId>, slots': Slots)
    requires TookSubs(n, slots, ids, slots')
    ensures AllLive(slots', ids)
  {
    hide SubSlots.Live;
  }

  /** What was given back was not live before. */
  lemma KeepsFresh(n: nat, s: SubSys, t: SubSys, u: SubSys, ids: seq<SubId>)
    requires KeepsLive(s, t, {}) && KeepsLive(t, u, ToSubSet(ids)) && TookSubs(n, s.slots, ids, t.slots)
    ensures KeepsLive(s, u, {})
  {
    hide SubSlots.Live, Kept;
    KeepsTwice(s, t, u, {}, ToSubSet(ids));
  }

  // ── Any call ───────────────────────────────────────────────────────────────

  /** The call frees x, or writes to it. */
  predicate Touches(op: SubOp, x: SubId) {
    match op
    case SubOpFree(id) => id == x
    case SubOpFreeBulk(ids) => x in ids
    case SubOpWrite(id, _) => id == x
    case _ => false
  }

  /** These are the bytes of a live sub-page, as the process sees them. */
  ghost predicate Holds(size: nat, n: nat, s: SubSys, x: SubId, data: seq<byte>) {
    && SubSlots.Live(s.slots, x) && Addressable(n, s.slots, x) && InPage(size, n, s, x)
    && PageOf(s, x)[Offset(size, x)..Offset(size, x) + size] == data
  }

  lemma LiveFits(g: Geometry, size: nat, n: nat, s: SubSys, x: SubId, a: Abs)
    requires SubSteady(g, n, s, a) && Cut(g, size, n) && SubSlots.Live(s.slots, x)
    ensures Addressable(n, s.slots, x) && InPage(size, n, s, x)
  {
    hide SubSteady, Cut, Bit, InPage;
    CutBound(g, size, n);
    SubParts(g, n, s, a);
    LiveChecks(n, s.slots, x);
    PagesFit(g, size, n, s, x, a);
  }

  lemma KeptHolds(g: Geometry, size: nat, n: nat, s: SubSys, s': SubSys, x: SubId, data: seq<byte>, a: Abs)
    requires SubSteady(g, n, s', a) && Cut(g, size, n) && Kept(s, s', x) && Holds(size, n, s, x, data)
    ensures Holds(size, n, s', x, data)
  {
    hide SubSteady, Cut, Bit, Offset, MappedPage;
    LiveFits(g, size, n, s', x, a);
  }

  lemma WriteHolds(g: Geometry, size: nat, n: nat, s: SubSys, y: SubId, bytes: seq<byte>, x: SubId, data: seq<byte>, a: Abs)
    requires SubSteady(g, n, s, a) && Cut(g, size, n) && |bytes| == size && InPage(size, n, s, y)
    requires Holds(size, n, s, x, data) && x != y
    ensures Holds(size, n, SubWrite(size, n, s, y, bytes).0, x, data)
  {
    hide SubSteady, Cut, SubWrite, SubRead, Offset, PageOf, InPage, SubSlots.Live, Others;
    SubWriteSafe(g, size, n, s, y, bytes, a);
    var s' := SubWrite(size, n, s, y, bytes).0;
    LiveFits(g, size, n, s', x, a);
    if s.inner.mapped && Addressable(n, s.slots, y) {
      WriteIsLocal(g, size, n, s, y, bytes, x, a);
      ReadsPage(g, size, n, s, x, a);
      ReadsPage(g, size, n, s', x, a);
    } else {
      NotWritten(size, n, s, y, bytes, x);
    }
  }

  lemma NotWritten(size: nat, n: nat, s: SubSys, y: SubId, bytes: seq<byte>, x: SubId)
    requires InPage(size, n, s, y) && |bytes| == size && !(s.inner.mapped && Addressable(n, s.slots, y))
    requires Addressable(n, s.slots, x)
    ensures
      var s' := SubWrite(size, n, s, y, bytes).0;
      s'.slots == s.slots && PageOf(s', x) == PageOf(s, x)
  {
    hide Spliced, Offset;
  }

  /** Every call keeps the bytes of every live sub-page it neither frees nor writes to. */
  lemma CallHolds(g: Geometry, size: nat, n: nat, s: SubSys, op: SubOp, s': SubSys, x: SubId, data: seq<byte>, a: Abs)
    requires SubSteady(g, n, s, a) && Cut(g, size, n) && SubNext(g, size, n, s, op, s')
    requires Holds(size, n, s, x, data) && !Touches(op, x)
    ensures Holds(size, n, s', x, data)
  {
    hide SubSteady, Cut, Capacity, SubAlloc, SubAllocBulk, SubFree, SubFreeBulk, SubWrite, Kept, Holds, Others, InPage;
    CutBound(g, size, n);
    SubStepSafe(g, size, n, s, op, s', a);
    HoldsLive(size, n, s, x, data);
    match op
    case SubOpWrite(id, bytes) => WriteHolds(g, size, n, s, id, bytes, x, data, a);
    case SubOpAlloc(env) =>
      SubAllocKeeps(g, n, s, env, a);
      KeptHolds(g, size, n, s, s', x, data, a);
    case SubOpAllocBulk(env, count) =>
      SubAllocBulkKeeps(g, n, s, env, count, a);
      KeptHolds(g, size, n, s, s', x, data, a);
    case SubOpFree(id) =>
      SubFreeKeeps(g, n, s, id, a);
      KeptHolds(g, size, n, s, s', x, data, a);
    case SubOpFreeBulk(ids) =>
      SubFreeBulkKeeps(g, n, s, ids, a);
      KeptHolds(g, size, n, s, s', x, data, a);
  }

  lemma HoldsLive(size: nat, n: nat, s: SubSys, x: SubId, data: seq<byte>)
    requires Holds(size, n, s, x, data)
    ensures SubSlots.Live(s.slots, x)
  {
  }

  lemma HoldsReads(g: Geometry, size: nat, n: nat, s: SubSys, x: SubId, data: seq<byte>, a: Abs)
    requires SubSteady(g, n, s, a) && Holds(size, n, s, x, data)
    ensures InPage(size, n, s, x)
    ensures SubRead(size, n, s, x) == if s.inner.mapped then Ok(data) else Err(Unavailable)
  {
    hide Steady, SubOk, Offset, Bit;
    BigIsRegular(n, s, x);
  }

  /** A call on a file that is mapped before and after: reading any live sub-page that the call
      neither frees nor writes to gives the same bytes. */
  lemma CallKeepsReads(g: Geometry, size: nat, n: nat, s: SubSys, op: SubOp, s': SubSys, x: SubId, a: Abs)
    requires SubSteady(g, n, s, a) && Cut(g, size, n) && SubNext(g, size, n, s, op, s')
    requires SubSlots.Live(s.slots, x) && !Touches(op, x) && s.inner.mapped && s'.inner.mapped
    ensures SubSlots.Live(s'.slots, x) && InPage(size, n, s, x) && InPage(size, n, s', x)
    ensures SubRead(size, n, s', x) == SubRead(size, n, s, x)
  {
    hide SubSteady, Cut, SubNext, SubRead, InPage, Offset, PageOf;
    LiveFits(g, size, n, s, x, a);
    ReadsPage(g, size, n, s, x, a);
    SliceHeld(size, n, s, x);
    var data := PageOf(s, x)[Offset(size, x)..Offset(size, x) + size];
    CallHolds(g, size, n, s, op, s', x, data, a);
    SubStepSafe(g, size, n, s, op, s', a);
    HoldsReads(g, size, n, s, x, data, a);
    HoldsReads(g, size, n, s', x, data, a);
    HoldsLive(size, n, s', x, data);
  }

  lemma SliceHeld(size: nat, n: nat, s: SubSys, x: SubId)
    requires SubSlots.Live(s.slots, x) && Addressable(n, s.slots, x) && InPage(size, n, s, x)
    ensures Offset(size, x) + size <= |PageOf(s, x)|
    ensures Holds(size, n, s, x, PageOf(s, x)[Offset(size, x)..Offset(size, x) + size])
  {
    hide SubSlots.Live, Offset, PageOf;
  }

  // ── Runs ───────────────────────────────────────────────────────────────────

  lemma WrittenHolds(g: Geometry, size: nat, n: nat, s: SubSys, x: SubId, data: seq<byte>, a: Abs)
    requires SubSteady(g, n, s, a) && Cut(g, size, n) && |data| == size && s.inner.mapped && SubSlots.Live(s.slots, x)
    ensures InPage(size, n, s, x) && Holds(size, n, SubWrite(size, n, s, x, data).0, x, data)
  {
    hide SubSteady, Cut, SubWrite, SubRead, Offset, PageOf, InPage, SubSlots.Live, Others;
    LiveFits(g, size, n, s, x, a);
    SubWriteSafe(g, size, n, s, x, data, a);
    var s' := SubWrite(size, n, s, x, data).0;
    LiveFits(g, size, n, s', x, a);
    WriteIsLocal(g, size, n, s, x, data, x, a);
    ReadsPage(g, size, n, s', x, a);
  }

  lemma {:induction false} HoldsUntil(g: Geometry, size: nat, n: nat, inner: Sys, ss: seq<SubSys>, ops: seq<SubOp>, a: Abs,
                                      i: nat, j: nat, x: SubId, data: seq<byte>)
    requires Cut(g, size, n) && Steady(g, inner, a) && IsSubRun(g, size, n, inner, ss, ops)
    requires i < j < |ss| && ops[i] == SubOpWrite(x, data) && SubSlots.Live(ss[i].slots, x) && ss[i].inner.mapped
    requires forall k :: i < k < j ==> !Touches(ops[k], x)
    ensures SubSteady(g, n, ss[j], a) && Holds(size, n, ss[j], x, data)
    decreases j
  {
    hide SubSteady, Steady, Cut, SubSlots.Live, Holds, Others, AllocatedSet, SubAlloc, SubAllocBulk, SubFree, SubFreeBulk, SubWrite,
         Capacity, InPage;
    SubRunSafe(g, size, n, inner, ss, ops, a);
    assert SubNext(g, size, n, ss[j - 1], ops[j - 1], ss[j]);
    if j == i + 1 {
      WrittenHolds(g, size, n, ss[i], x, data, a);
    } else {
      HoldsUntil(g, size, n, inner, ss, ops, a, i, j - 1, x, data);
      CallHolds(g, size, n, ss[j - 1], ops[j - 1], ss[j], x, data, a);
    }
  }

  /** What was last written to a live sub-page is what it reads, whatever calls come between, until
      it is written to again or freed. */
  lemma SubReadBack(g: Geometry, size: nat, n: nat, inner: Sys, ss: seq<SubSys>, ops: seq<SubOp>, a: Abs,
                    i: nat, j: nat, x: SubId, data: seq<byte>)
    requires Cut(g, size, n) && Steady(g, inner, a) && IsSubRun(g, size, n, inner, ss, ops)
    requires i < j < |ss| && ops[i] == SubOpWrite(x, data) && SubSlots.Live(ss[i].slots, x) && ss[i].inner.mapped
    requires forall k :: i < k < j ==> !Touches(ops[k], x)
    ensures InPage(size, n, ss[j], x)
    ensures SubRead(size, n, ss[j], x) == if ss[j].inner.mapped then Ok(data) else Err(Unavailable)
  {
    hide SubSteady, Steady, Cut, SubSlots.Live, Holds, IsSubRun, InPage, SubRead;
    SubRunShape(g, size, n, inner, ss, ops);
    HoldsUntil(g, size, n, inner, ss, ops, a, i, j, x, data);
    HoldsReads(g, size, n, ss[j], x, data, a);
  }

  lemma SubRunShape(g: Geometry, size: nat, n: nat, inner: Sys, ss: seq<SubSys>, ops: seq<SubOp>)
    requires IsSubRun(g, size, n, inner, ss, ops)
    ensures |ss| == |ops| + 1
  {
    hide SubNext;
  }
}
