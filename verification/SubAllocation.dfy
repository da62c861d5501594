/** The sub-page allocator's operations on its slot table and the pager inside it. */
module SubAllocation {
  import opened Bytes
  import opened Bits
  import opened Results
  import opened Metadata
  import opened Recovery
  import opened Sorting
  import opened PagerSpec
  import opened Ownership
  import opened Safety
  import opened RawAllocation
  import opened DirChanges
  import opened Entries
  import opened Operations
  import opened Bulk
  import opened Runs
  import opened Accounting
  import opened SubSlots

  datatype SubSys = SubSys(slots: Slots, inner: Sys)

  // ── The operations ─────────────────────────────────────────────────────────

  /** The first partial big page gives a sub-page, else a fresh big page does. */
  function SubAlloc(g: Geometry, n: nat, s: SubSys, env: Env): (SubSys, Result<SubId>) {
    var i := FirstPartial(s.slots, FullMask(n));
    if i < |s.slots| then
      var (slots, id) := TakeBit(s.slots, i);
      (s.(slots := slots), Ok(id))
    else
      var (inner, r) := Alloc(g, Begin(s.inner), env);
      match r
      case Err(e) => (s.(inner := inner), Err(e))
      case Ok(big) =>
        var (slots, id) := AddBig(s.slots, big);
        (SubSys(slots, inner), Ok(id))
  }

  function SubFree(g: Geometry, n: nat, s: SubSys, id: SubId): (SubSys, Result<()>) {
    match CheckSub(n, s.slots, id)
    case Err(e) => (s, Err(e))
    case Ok(_) =>
      var (slots, emptied) := ClearOne(s.slots, id);
      match emptied
      case None => (s.(slots := slots), Ok(()))
      case Some(big) =>
        var (inner, r) := Free(g, Begin(s.inner), big);
        (SubSys(slots, inner), r)
  }

  /** One call to the pager per big page, stopping at the first failure. */
  function ReleaseAll(g: Geometry, inner: Sys, bigs: seq<nat>): (Sys, Result<()>)
    decreases |bigs|
  {
    if bigs == [] then (inner, Ok(()))
    else
      var (inner1, r) := Free(g, Begin(inner), bigs[0]);
      if r.Err? then (inner1, r) else ReleaseAll(g, inner1, bigs[1..])
  }

  function SubFreeBulk(g: Geometry, n: nat, s: SubSys, ids: seq<SubId>): (SubSys, Result<()>) {
    if ids == [] then (s, Ok(()))
    else
      var sorted := Sort(ids, SubLeq);
      if AdjacentEqual(sorted) then (s, Err(DoubleFree))
      else
        match CheckSubs(n, s.slots, sorted)
        case Err(e) => (s, Err(e))
        case Ok(_) =>
          var (slots, emptied) := ClearAll(s.slots, sorted);
          var (inner, r) := ReleaseAll(g, s.inner, emptied);
          (SubSys(slots, inner), r)
  }

  /** Single frees in the order given, stopping at the first failure. */
  function SubFreeEach(g: Geometry, n: nat, s: SubSys, ids: seq<SubId>): (SubSys, Result<()>)
    decreases |ids|
  {
    if ids == [] then (s, Ok(()))
    else
      var (s1, r) := SubFree(g, n, s, ids[0]);
      if r.Err? then (s1, r) else SubFreeEach(g, n, s1, ids[1..])
  }

  function SubAllocEach(g: Geometry, n: nat, s: SubSys, env: Env, count: nat): (SubSys, seq<SubId>, Result<()>)
    decreases count
  {
    if count == 0 then (s, [], Ok(()))
    else
      var (s1, r) := SubAlloc(g, n, s, env);
      match r
      case Err(e) => (s1, [], Err(e))
      case Ok(id) =>
        var (s2, ids, r2) := SubAllocEach(g, n, s1, env, count - 1);
        (s2, [id] + ids, r2)
  }

  /** The rollback: what a single free answers is ignored. */
  function SubFreeAnyway(g: Geometry, n: nat, s: SubSys, ids: seq<SubId>): SubSys
    decreases |ids|
  {
    if ids == [] then s else SubFreeAnyway(g, n, SubFree(g, n, s, ids[0]).0, ids[1..])
  }

  function SubAllocBulk(g: Geometry, n: nat, s: SubSys, env: Env, count: nat): (SubSys, Result<seq<SubId>>) {
    var (s1, ids, r) := SubAllocEach(g, n, s, env, count);
    match r
    case Ok(_) => (s1, Ok(ids))
    case Err(e) => (SubFreeAnyway(g, n, s1, ids), Err(e))
  }

  // ── The invariant ──────────────────────────────────────────────────────────

  /** Every big page is an allocated page above the reserved ones that the directory does not
      refer to, in memory or on disk. */
  ghost predicate SubOk(n: nat, s: SubSys) {
    SlotsOk(n, s.slots) && BigPages(s.slots) <= Regular(Held(s.inner))
  }

  /** The allocated pages that are none of the allocator's. */
  ghost function Others(s: SubSys): set<nat> {
    AllocatedSet(s.inner.mem.meta) - BigPages(s.slots)
  }

  /** Between calls, whether the pager's file is mapped or not. */
  ghost predicate SubSteady(g: Geometry, n: nat, s: SubSys, a: Abs) {
    Steady(g, s.inner, a) && SubOk(n, s)
  }

  lemma SubParts(g: Geometry, n: nat, s: SubSys, a: Abs)
    requires SubSteady(g, n, s, a)
    ensures Steady(g, s.inner, a) && SubOk(n, s) && SlotsOk(n, s.slots)
    ensures BigPages(s.slots) <= Regular(Held(s.inner)) && BigPages(s.slots) <= AllocatedSet(s.inner.mem.meta)
  {
    hide Steady, BigPages, AllocatedSet, Referenced, SlotsOk;
  }

  // ── The pager's side ───────────────────────────────────────────────────────

  /** A commit moves neither the bitmap nor what the directory refers to. */
  lemma HeldCommitted(g: Geometry, s: Sys)
    requires s.mem.blocks == s.dur.blocks
    ensures
      var s' := Commit(g, s).0;
      && Held(s').blocks == s.dur.blocks && Held(s').dirs == s.dur.dirs && Held(s').meta == s'.mem.meta
      && s'.mem.meta == NextGeneration(s.mem.meta) && AllocatedSet(s'.mem.meta) == AllocatedSet(s.mem.meta)
  {
    hide Commit, AllocatedSet;
    CommitFrame(g, s);
    GenerationOnly(s.mem.meta);
  }

  /** The raw half of the pager's `alloc`. */
  lemma InnerRaw(g: Geometry, s: Sys, env: Env, a: Abs, k: nat)
    requires Steady(g, s, a) && k > 0 && Capacity(g, s.mem.meta, k)
    ensures
      var (s1, r) := AllocRaw(g, s, env);
      && s1.mem.meta.generation == s.mem.meta.generation && (s.mapped && r.Ok? ==> s1.mapped)
      && s1.mem.blocks == s1.dur.blocks && s1.dur == s.dur && Owned(Held(s))
      && (r.Ok? ==> Capacity(g, s1.mem.meta, k - 1) && TookPage(s.mem.meta, s1.mem.meta, r.value))
      && (r.Err? ==> s1.mem == s.mem)
  {
    hide Steady, Capacity, AllocRaw, AllocatedSet, Consistent, GrownTotal, Owned, DirsLag, TookPage;
    SteadyMeta(g, s, a);
    SteadyLag(g, s, a);
    OwnedOf(g, Held(s));
    RawTakesSmallest(g, s, env, k);
    RawGeneration(g, s, env);
    RawKeepsDirs(g, s, env);
    if s.mapped {
      RawMapped(g, s, env);
    }
  }

  lemma InnerAlloc(g: Geometry, s: Sys, env: Env, a: Abs, k: nat)
    requires Steady(g, s, a) && k > 0 && Capacity(g, s.mem.meta, k) && s.mem.meta.generation + 1 < U64_LIMIT
    ensures
      var (s', r) := Alloc(g, Begin(s), env);
      && Steady(g, s', a) && s'.mem.meta.generation <= s.mem.meta.generation + 1
      && (r.Ok? ==>
            && s'.mapped && Capacity(g, s'.mem.meta, k - 1)
            && r.value !in AllocatedSet(s.mem.meta)
            && AllocatedSet(s'.mem.meta) == AllocatedSet(s.mem.meta) + {r.value}
            && Regular(Held(s')) == Regular(Held(s)) + {r.value})
      && (r.Err? ==>
            && AllocatedSet(s.mem.meta) <= AllocatedSet(s'.mem.meta) && Regular(Held(s)) <= Regular(Held(s'))
            && (s.mapped ==> s'.mem == s.mem))
  {
    hide Steady, TraceOk, Capacity, AllocRaw, Commit, Regular, AllocatedSet, Owned, Held;
    var t := Begin(s);
    HeldBegin(s);
    BeginSteady(g, s, a);
    CapacityLess(g, s.mem.meta, k, 1);
    AllocSafe(g, t, env, a);
    InnerRaw(g, t, env, a, k);
    var (s1, r) := AllocRaw(g, t, env);
    CommitFrame(g, s1);
    HeldSame(t, s1);
    if r.Ok? {
      HeldCommitted(g, s1);
      BumpCapacity(g, s1.mem.meta, k - 1);
      HeldParts(t);
      RegularGrows(Held(t), Held(Commit(g, s1).0), {r.value});
    }
  }

  lemma HeldBegin(s: Sys)
    ensures Held(Begin(s)) == Held(s) && Begin(s).mem == s.mem && Begin(s).mapped == s.mapped
  {
  }

  lemma HeldSame(s: Sys, s1: Sys)
    requires s1.dur == s.dur
    ensures s1.mem == s.mem ==> Held(s1) == Held(s)
  {
  }

  lemma HeldParts(s: Sys)
    ensures Held(s).meta == s.mem.meta && Held(s).blocks == s.dur.blocks && Held(s).dirs == s.dur.dirs
  {
  }

  lemma BumpCapacity(g: Geometry, m: Meta, k: nat)
    requires Capacity(g, m, k)
    ensures Capacity(g, NextGeneration(m), k)
  {
  }

  /** Memory apart from the bitmap after so many released pages, one commit each. */
  ghost predicate Released(m: Mem, m': Mem, count: nat) {
    && m'.blocks == m.blocks && m'.dirs == m.dirs
    && m'.meta.total == m.meta.total && m'.meta.generation == m.meta.generation + count
    && m'.active == if count % 2 == 0 then m.active else m.active.Other()
  }

  lemma RegularFacts(g: Geometry, s: Sys, a: Abs, id: nat)
    requires Steady(g, s, a) && id in Regular(Held(s))
    ensures FIRST_DATA_PAGE <= id && Allocated(s.mem.meta, id) && id in AllocatedSet(s.mem.meta)
    ensures id !in Referenced(s.dur) && id < s.mem.meta.total && Exact(s.mem.meta)
  {
    hide Steady, Consistent, Referenced, BitAt;
    InAllocatedSet(s.mem.meta, id);
    SameDirectory(s.dur, Held(s));
    SteadyMeta(g, s, a);
  }

  lemma InnerFree(g: Geometry, s: Sys, id: nat, a: Abs)
    requires Steady(g, s, a) && id in Regular(Held(s)) && s.mem.meta.generation + 1 < U64_LIMIT
    ensures
      var (s', r) := Free(g, Begin(s), id);
      && Steady(g, s', a) && s'.mapped == s.mapped && (r.Ok? <==> s.mapped)
      && (s.mapped ==> Released(s.mem, s'.mem, 1))
      && s'.mem.meta.generation == s.mem.meta.generation + 1
      && AllocatedSet(s'.mem.meta) == AllocatedSet(s.mem.meta) - {id}
      && Regular(Held(s')) == Regular(Held(s)) - {id}
  {
    hide Steady, TraceOk, Regular, AllocatedSet, Consistent, Referenced, Exact, Allocated, Unmark, Commit, DirsLag;
    var t := Begin(s);
    BeginSteady(g, s, a);
    RegularFacts(g, s, a, id);
    SteadyLag(g, t, a);
    FreeSafe(g, t, id, a);
    UnmarkFrees(s.mem.meta, id);
    var t1 := WithMeta(t, Unmark(s.mem.meta, id));
    CommitFrame(g, t1);
    HeldCommitted(g, t1);
    RegularShrinks(Held(t), Held(Commit(g, t1).0), {id});
  }

  lemma ReleasedThen(m: Mem, m1: Mem, m2: Mem, count: nat)
    requires Released(m, m1, 1) && Released(m1, m2, count)
    ensures Released(m, m2, count + 1)
  {
  }

  lemma ReleaseUnfolds(g: Geometry, s: Sys, bigs: seq<nat>)
    ensures bigs == [] ==> ReleaseAll(g, s, bigs).0 == s && ReleaseAll(g, s, bigs).1.Ok?
    ensures bigs != [] ==>
              var (s1, r) := Free(g, Begin(s), bigs[0]);
              if r.Ok? then ReleaseAll(g, s, bigs) == ReleaseAll(g, s1, bigs[1..])
              else ReleaseAll(g, s, bigs).0 == s1
  {
    hide Free;
    if bigs != [] {
      match Free(g, Begin(s), bigs[0]).1
      case Ok(_) =>
      case Err(_) =>
    }
  }

  lemma FirstOfDistinct(bigs: seq<nat>)
    requires Distinct(bigs) && bigs != []
    ensures bigs[0] in ToSet(bigs) && Distinct(bigs[1..]) && bigs[0] !in ToSet(bigs[1..])
    ensures ToSet(bigs[1..]) == ToSet(bigs) - {bigs[0]}
  {
    var rest := bigs[1..];
    assert forall x :: x in bigs <==> x == bigs[0] || x in rest;
    assert bigs[0] !in rest;
  }

  /** Giving back several big pages: all of them while the file is mapped; without a mapping the
      first release fails after the page has been freed in memory, and the others stay. */
  lemma {:induction false} ReleaseAllSafe(g: Geometry, s: Sys, bigs: seq<nat>, a: Abs)
    requires Steady(g, s, a) && Distinct(bigs) && ToSet(bigs) <= Regular(Held(s))
    requires s.mem.meta.generation + |bigs| < U64_LIMIT
    ensures
      var (s', r) := ReleaseAll(g, s, bigs);
      && Steady(g, s', a) && s'.mapped == s.mapped
      && s'.mem.meta.generation <= s.mem.meta.generation + |bigs|
      && AllocatedSet(s.mem.meta) - ToSet(bigs) <= AllocatedSet(s'.mem.meta) <= AllocatedSet(s.mem.meta)
      && Regular(Held(s)) - ToSet(bigs) <= Regular(Held(s'))
      && (s.mapped ==>
            && r.Ok? && Released(s.mem, s'.mem, |bigs|)
            && AllocatedSet(s'.mem.meta) == AllocatedSet(s.mem.meta) - ToSet(bigs))
    decreases |bigs|
  {
    hide Steady, Regular, AllocatedSet, Free, ReleaseAll, ToSet, Distinct;
    ReleaseUnfolds(g, s, bigs);
    if bigs == [] {
      NothingTaken();
    } else {
      FirstOfDistinct(bigs);
      InnerFree(g, s, bigs[0], a);
      if s.mapped {
        var s1 := Free(g, Begin(s), bigs[0]).0;
        ReleaseAllSafe(g, s1, bigs[1..], a);
        ReleasedThen(s.mem, s1.mem, ReleaseAll(g, s1, bigs[1..]).0.mem, |bigs| - 1);
      }
    }
  }

  // ── Which sub-page is handed out ───────────────────────────────────────────

  /** As long as some sub-page of its big pages is free, `alloc` hands out the first of them and does
      not call the pager. Otherwise it asks the pager for one page, puts it into the first tombstone
      or at the end, and hands out its first sub-page. */
  ghost predicate Picked(g: Geometry, n: nat, s: SubSys, env: Env, s': SubSys, r: Result<SubId>) {
    var (inner, big) := Alloc(g, Begin(s.inner), env);
    && ((exists x :: Spare(n, s.slots, x)) ==>
          && r.Ok? && FirstSpare(n, s.slots, r.value)
          && s'.inner == s.inner && BigPages(s'.slots) == BigPages(s.slots) && SameBigs(s.slots, s'.slots))
    && ((forall x :: !Spare(n, s.slots, x)) ==>
          && s'.inner == inner && (r.Ok? <==> big.Ok?) && (r.Err? ==> r == Err(big.error) && s'.slots == s.slots)
          && (r.Ok? ==>
                && r.value.sub == 0 && FirstHole(s.slots, r.value.slot)
                && s'.slots == Filled(s.slots, r.value.slot, big.value)
                && BigPages(s'.slots) == BigPages(s.slots) + {big.value}))
  }

  /** The two passes. */
  lemma AllocPasses(g: Geometry, n: nat, s: SubSys, env: Env)
    ensures
      var (s', r) := SubAlloc(g, n, s, env);
      var (inner, big) := Alloc(g, Begin(s.inner), env);
      var i, h := FirstPartial(s.slots, FullMask(n)), FirstTombstone(s.slots);
      if i < |s.slots| then s' == s.(slots := TakeBit(s.slots, i).0) && r == Ok(TakeBit(s.slots, i).1)
      else if big.Err? then s' == s.(inner := inner) && r == Err(big.error)
      else s' == SubSys(Filled(s.slots, h, big.value), inner) && r == Ok(SubId(h, 0)) && FirstHole(s.slots, h)
  {
    hide FullMask, TakeBit, AddBig, Alloc, Filled, FirstHole;
    var big := Alloc(g, Begin(s.inner), env).1;
    if big.Ok? {
      AddBigFills(s.slots, big.value);
    }
  }

  lemma SubAllocPicks(g: Geometry, n: nat, s: SubSys, env: Env)
    requires 0 < n <= 64 && SlotsOk(n, s.slots)
    ensures var (s', r) := SubAlloc(g, n, s, env); Picked(g, n, s, env, s', r)
  {
    hide FullMask, TakeBit, FirstTombstone, Alloc, BigPages, SlotsOk, Spare, FirstSpare, SameBigs, SubAlloc, FirstHole, Filled,
         FirstPartial;
    AllocPasses(g, n, s, env);
    var i := FirstPartial(s.slots, FullMask(n));
    if i < |s.slots| {
      TakesFirstSpare(n, s.slots);
      TakeBitEffect(n, s.slots, i);
      TakeBitSame(s.slots, i);
      FirstIsSpare(n, s.slots, TakeBit(s.slots, i).1);
    } else {
      forall x
        ensures !Spare(n, s.slots, x)
      {
        NoSpare(n, s.slots, x);
      }
      var big := Alloc(g, Begin(s.inner), env).1;
      if big.Ok? {
        FilledPages(s.slots, FirstTombstone(s.slots), big.value);
      }
    }
  }

  // ── Allocation ─────────────────────────────────────────────────────────────

  lemma TakeSteady(g: Geometry, n: nat, s: SubSys, slots: Slots, a: Abs)
    requires SubSteady(g, n, s, a) && SlotsOk(n, slots) && BigPages(slots) == BigPages(s.slots)
    ensures SubSteady(g, n, s.(slots := slots), a) && Others(s.(slots := slots)) == Others(s)
  {
    hide Steady, SlotsOk, BigPages, Regular, AllocatedSet;
  }

  lemma AddSteady(g: Geometry, n: nat, s: SubSys, s': SubSys, big: nat, a: Abs)
    requires SubSteady(g, n, s, a) && Steady(g, s'.inner, a) && SlotsOk(n, s'.slots)
    requires BigPages(s'.slots) == BigPages(s.slots) + {big} && big !in AllocatedSet(s.inner.mem.meta)
    requires AllocatedSet(s'.inner.mem.meta) == AllocatedSet(s.inner.mem.meta) + {big}
    requires Regular(Held(s'.inner)) == Regular(Held(s.inner)) + {big}
    ensures SubSteady(g, n, s', a) && Others(s') == Others(s)
  {
    hide Steady, SlotsOk, BigPages, Regular, AllocatedSet;
  }

  lemma FailSteady(g: Geometry, n: nat, s: SubSys, s': SubSys, a: Abs)
    requires SubSteady(g, n, s, a) && Steady(g, s'.inner, a) && s'.slots == s.slots
    requires AllocatedSet(s.inner.mem.meta) <= AllocatedSet(s'.inner.mem.meta)
    requires Regular(Held(s.inner)) <= Regular(Held(s'.inner))
    ensures SubSteady(g, n, s', a) && Others(s) <= Others(s')
  {
    hide Steady, SlotsOk, BigPages, Regular, AllocatedSet;
  }

  /** `alloc` hands out a sub-page that was not live and leaves every other one alone; the
      pages that are none of the allocator's stay allocated. On a pager that has lost its mapping
      it may fail and leave one page more allocated. */
  lemma SubAllocSafe(g: Geometry, n: nat, s: SubSys, env: Env, a: Abs, k: nat)
    requires SubSteady(g, n, s, a) && 0 < n <= 64
    requires k > 0 && Capacity(g, s.inner.mem.meta, k) && s.inner.mem.meta.generation + 1 < U64_LIMIT
    ensures
      var (s', r) := SubAlloc(g, n, s, env);
      && SubSteady(g, n, s', a) && s'.inner.mem.meta.generation <= s.inner.mem.meta.generation + 1
      && Others(s) <= Others(s') && (r.Ok? || s.inner.mapped ==> Others(s') == Others(s))
      && (r.Ok? ==>
            && Capacity(g, s'.inner.mem.meta, k - 1) && (s.inner.mapped ==> s'.inner.mapped)
            && r.value.sub < n && !Live(s.slots, r.value)
            && forall x :: Live(s'.slots, x) <==> x == r.value || Live(s.slots, x))
      && (r.Err? ==> s'.slots == s.slots && (s.inner.mapped ==> s'.inner.mem == s.inner.mem))
      && Picked(g, n, s, env, s', r)
  {
    hide Steady, SubSteady, SubOk, Capacity, Live, FullMask, FirstPartial, TakeBit, AddBig, Alloc, SlotsOk, Regular, AllocatedSet,
         BigPages, Others, Picked;
    SubParts(g, n, s, a);
    SubAllocPicks(g, n, s, env);
    var i := FirstPartial(s.slots, FullMask(n));
    if i < |s.slots| {
      TakeBitEffect(n, s.slots, i);
      TakeSteady(g, n, s, TakeBit(s.slots, i).0, a);
      CapacityLess(g, s.inner.mem.meta, k, k - 1);
    } else {
      InnerAlloc(g, s.inner, env, a, k);
      var (inner, r) := Alloc(g, Begin(s.inner), env);
      if r.Ok? {
        AddBigEffect(n, s.slots, r.value);
        AddSteady(g, n, s, SubSys(AddBig(s.slots, r.value).0, inner), r.value, a);
      } else {
        FailSteady(g, n, s, s.(inner := inner), a);
        SameOthers(s, s.(inner := inner));
      }
    }
  }

  lemma SameOthers(s: SubSys, s': SubSys)
    ensures s'.slots == s.slots && s'.inner.mem == s.inner.mem ==> Others(s') == Others(s)
  {
  }

  // ── Freeing ────────────────────────────────────────────────────────────────

  /** Those sub-pages and no others are gone, and each big page that became empty was released. */
  ghost predicate Freed(g: Geometry, n: nat, s: SubSys, ids: seq<SubId>, s': SubSys, a: Abs) {
    && SubSteady(g, n, s', a) && s'.inner.mapped && Cleared(n, s.slots, ids, s'.slots)
    && BigPages(s'.slots) <= BigPages(s.slots) && Others(s') == Others(s)
    && Released(s.inner.mem, s'.inner.mem, |BigPages(s.slots) - BigPages(s'.slots)|)
  }

  lemma ClearedSelf(n: nat, slots: Slots, id: SubId, slots': Slots)
    requires SlotsOk(n, slots') && Shrunk(slots, slots')
    requires forall x :: Live(slots', x) <==> x != id && Live(slots, x)
    ensures Cleared(n, slots, [id], slots')
  {
    hide SlotsOk, Live;
  }

  /** A big page taken out of the table and released. */
  lemma DropSteady(g: Geometry, n: nat, s: SubSys, s': SubSys, big: nat, a: Abs)
    requires SubSteady(g, n, s, a) && Steady(g, s'.inner, a) && SlotsOk(n, s'.slots)
    requires BigPages(s'.slots) == BigPages(s.slots) - {big} && big in BigPages(s.slots)
    requires AllocatedSet(s'.inner.mem.meta) == AllocatedSet(s.inner.mem.meta) - {big}
    requires Regular(Held(s'.inner)) == Regular(Held(s.inner)) - {big}
    ensures SubSteady(g, n, s', a) && Others(s') == Others(s)
  {
    hide Steady, SlotsOk, BigPages, Regular, AllocatedSet;
  }

  /** The pager is called for the big page of a sub-page only when that was its last live one. */
  ghost predicate Returned(g: Geometry, s: SubSys, id: SubId, s': SubSys) {
    && id.slot < |s.slots| == |s'.slots| && s.slots[id.slot].Some?
    && s'.inner == if s'.slots[id.slot].Some? then s.inner else Free(g, Begin(s.inner), s.slots[id.slot].value.id).0
  }

  lemma FreeReturns(g: Geometry, n: nat, s: SubSys, id: SubId)
    requires CheckSub(n, s.slots, id).Ok?
    ensures Returned(g, s, id, SubFree(g, n, s, id).0)
  {
    hide Free, Bit, ClearBit;
  }

  /** `free`, with or without a mapping: a live sub-page is gone afterwards, also when releasing
      its big page fails, and the pages that are none of the allocator's are as they were. */
  lemma SubFreeSafe(g: Geometry, n: nat, s: SubSys, id: SubId, a: Abs)
    requires SubSteady(g, n, s, a) && n <= 64 && s.inner.mem.meta.generation + 1 < U64_LIMIT
    ensures
      var (s', r) := SubFree(g, n, s, id);
      && SubSteady(g, n, s', a) && s'.inner.mapped == s.inner.mapped && Others(s') == Others(s)
      && s'.inner.mem.meta.generation <= s.inner.mem.meta.generation + 1
      && (Live(s.slots, id) ==> Cleared(n, s.slots, [id], s'.slots) && Returned(g, s, id, s'))
      && (!Live(s.slots, id) ==> s' == s && r.Err?)
      && (s.inner.mapped && Live(s.slots, id) ==> r.Ok? && Freed(g, n, s, [id], s', a))
  {
    hide Steady, SubSteady, SubOk, Live, CheckSub, ClearOne, SlotsOk, Regular, AllocatedSet, BigPages, Free, Cleared, Shrunk,
         Others, Released, Returned;
    SubParts(g, n, s, a);
    LiveChecks(n, s.slots, id);
    if Live(s.slots, id) {
      FreeReturns(g, n, s, id);
      ClearOneEffect(n, s.slots, id);
      var (slots, emptied) := ClearOne(s.slots, id);
      ClearedSelf(n, s.slots, id, slots);
      if emptied.Some? {
        InnerFree(g, s.inner, emptied.value, a);
        DropSteady(g, n, s, SubSys(slots, Free(g, Begin(s.inner), emptied.value).0), emptied.value, a);
        assert BigPages(s.slots) - BigPages(slots) == {emptied.value};
      } else {
        TakeSteady(g, n, s, slots, a);
        ReleasedNone(s.inner.mem);
        assert BigPages(s.slots) - BigPages(slots) == {};
      }
    }
  }

  lemma ReleasedNone(m: Mem)
    ensures Released(m, m, 0)
  {
  }

  lemma SubFreeExact(g: Geometry, n: nat, s: SubSys, id: SubId, a: Abs)
    requires SubSteady(g, n, s, a) && s.inner.mapped && n <= 64 && s.inner.mem.meta.generation + 1 < U64_LIMIT
    ensures
      var (s', r) := SubFree(g, n, s, id);
      && (r.Ok? <==> Live(s.slots, id))
      && (r.Ok? ==> Freed(g, n, s, [id], s', a) && Returned(g, s, id, s'))
      && (r.Err? ==> s' == s)
  {
    hide SubSteady, SubFree, Live, Freed, Cleared, Others, Returned;
    SubFreeSafe(g, n, s, id, a);
  }

  lemma FreedNothing(g: Geometry, n: nat, s: SubSys, a: Abs)
    requires SubSteady(g, n, s, a) && s.inner.mapped
    ensures Freed(g, n, s, [], s, a)
  {
    hide Steady, BigPages, Regular, AllocatedSet;
    assert BigPages(s.slots) - BigPages(s.slots) == {};
  }

  lemma FreedThen(g: Geometry, n: nat, s: SubSys, id: SubId, s1: SubSys, ids: seq<SubId>, s2: SubSys, a: Abs)
    requires Freed(g, n, s, [id], s1, a) && Freed(g, n, s1, ids, s2, a)
    ensures Freed(g, n, s, [id] + ids, s2, a)
  {
    hide SubSteady, Cleared, Released, BigPages, Others;
    ClearedThen(n, s.slots, id, s1.slots, ids, s2.slots);
    var p, q, r := BigPages(s.slots), BigPages(s1.slots), BigPages(s2.slots);
    assert p - r == (p - q) + (q - r);
    ReleasedBoth(s.inner.mem, s1.inner.mem, s2.inner.mem, |p - q|, |q - r|);
  }

  lemma ClearedThen(n: nat, slots: Slots, id: SubId, slots1: Slots, ids: seq<SubId>, slots2: Slots)
    requires Cleared(n, slots, [id], slots1) && Cleared(n, slots1, ids, slots2)
    ensures Cleared(n, slots, [id] + ids, slots2)
  {
    hide SlotsOk, Live;
    assert forall x :: x in [id] + ids <==> x == id || x in ids;
  }

  lemma ReleasedBoth(m: Mem, m1: Mem, m2: Mem, a: nat, b: nat)
    requires Released(m, m1, a) && Released(m1, m2, b)
    ensures Released(m, m2, a + b)
  {
  }

  lemma AllLiveAfter(n: nat, slots: Slots, slots1: Slots, ids: seq<SubId>)
    requires AllLive(slots, ids) && ids != [] && Cleared(n, slots, [ids[0]], slots1)
    ensures Live(slots, ids[0]) && AllLive(slots1, ids[1..])
  {
    hide Live, SlotsOk;
    assert ids[0] in ids;
    var rest := ids[1..];
    forall x | x in rest
      ensures x != ids[0] && x in ids
    {
      var j :| 0 <= j < |rest| && rest[j] == x;
      assert ids[j + 1] == x;
    }
  }

  /** Single frees of distinct live sub-pages, in any order. */
  lemma {:induction false} SubFreeEachExact(g: Geometry, n: nat, s: SubSys, ids: seq<SubId>, a: Abs)
    requires SubSteady(g, n, s, a) && s.inner.mapped && n <= 64 && AllLive(s.slots, ids)
    requires s.inner.mem.meta.generation + |ids| < U64_LIMIT
    ensures
      var (s', r) := SubFreeEach(g, n, s, ids);
      r.Ok? && Freed(g, n, s, ids, s', a)
      && s'.inner.mem.meta.generation <= s.inner.mem.meta.generation + |ids|
    decreases |ids|
  {
    hide *;
    EachUnfolds(g, n, s, ids);
    if ids == [] {
      FreedNothing(g, n, s, a);
    } else {
      FirstFreed(g, n, s, ids, a);
      var s1 := SubFree(g, n, s, ids[0]).0;
      SubFreeEachExact(g, n, s1, ids[1..], a);
      FreedThen(g, n, s, ids[0], s1, ids[1..], SubFreeEach(g, n, s1, ids[1..]).0, a);
      assert [ids[0]] + ids[1..] == ids;
    }
  }

  lemma EachUnfolds(g: Geometry, n: nat, s: SubSys, ids: seq<SubId>)
    ensures ids == [] ==> SubFreeEach(g, n, s, ids) == (s, Ok(()))
    ensures ids != [] && SubFree(g, n, s, ids[0]).1.Ok? ==>
              SubFreeEach(g, n, s, ids) == SubFreeEach(g, n, SubFree(g, n, s, ids[0]).0, ids[1..])
  {
    hide SubFree;
  }

  lemma FirstFreed(g: Geometry, n: nat, s: SubSys, ids: seq<SubId>, a: Abs)
    requires SubSteady(g, n, s, a) && s.inner.mapped && n <= 64 && AllLive(s.slots, ids) && ids != []
    requires s.inner.mem.meta.generation + 1 < U64_LIMIT
    ensures
      var (s1, r) := SubFree(g, n, s, ids[0]);
      && r.Ok? && Freed(g, n, s, [ids[0]], s1, a) && SubSteady(g, n, s1, a) && s1.inner.mapped
      && AllLive(s1.slots, ids[1..])
      && s1.inner.mem.meta.generation <= s.inner.mem.meta.generation + 1
  {
    hide SubSteady, SubFree, AllLive, Freed, Live, SlotsOk, Cleared, BigPages, Others;
    FirstLive(s.slots, ids);
    SubFreeSafe(g, n, s, ids[0], a);
    AllLiveAfter(n, s.slots, SubFree(g, n, s, ids[0]).0.slots, ids);
  }

  lemma FirstLive(slots: Slots, ids: seq<SubId>)
    requires AllLive(slots, ids) && ids != []
    ensures Live(slots, ids[0])
  {
    assert ids[0] in ids;
  }

  lemma FreedFacts(g: Geometry, n: nat, s: SubSys, ids: seq<SubId>, s': SubSys, a: Abs)
    requires Freed(g, n, s, ids, s', a)
    ensures SubSteady(g, n, s', a) && s'.inner.mapped && Cleared(n, s.slots, ids, s'.slots) && Others(s') == Others(s)
    ensures Released(s.inner.mem, s'.inner.mem, |BigPages(s.slots) - BigPages(s'.slots)|)
  {
  }
}
