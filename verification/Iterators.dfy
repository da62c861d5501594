/** The two page iterators and `is_internal_page`, with what the iterators enumerate. */
module Iterators {
  import opened Bytes
  import opened Bits
  import opened Results
  import opened Metadata
  import opened Layout
  import opened Recovery
  import opened PagerSpec
  import opened Ownership
  import opened DirSafety
  import opened RawAllocation
  import opened Runs
  import opened Accounting
  import opened ProtectedBulk
  import opened Shape
  import opened Pagers

  ghost predicate Increasing(xs: seq<nat>) {
    forall i, j :: 0 <= i < j < |xs| ==> xs[i] < xs[j]
  }

  // ── What is internal ───────────────────────────────────────────────────────

  lemma {:induction false} SumMember(bags: seq<multiset<nat>>, x: nat)
    ensures x in Sum(bags) <==> exists i :: 0 <= i < |bags| && x in bags[i]
  {
    if bags != [] {
      SumMember(bags[1..], x);
      if x in Sum(bags[1..]) {
        var i :| 0 <= i < |bags[1..]| && x in bags[1..][i];
        assert x in bags[i + 1];
      }
    }
  }

  lemma BlockMember(m: Mem, x: nat)
    ensures x in BlockPages(m) <==>
            exists i :: 0 <= i < |m.blocks| && (m.blocks[i].pageA == x || m.blocks[i].pageB == x)
  {
    SumMember(RefBags(m.blocks), x);
    forall i | 0 <= i < |m.blocks|
      ensures x in RefBags(m.blocks)[i] <==> m.blocks[i].pageA == x || m.blocks[i].pageB == x
    {
    }
    hide Sum;
  }

  /** Entry e keeps page x for a protected page in use. */
  predicate Backs(e: DirEntry, x: nat) {
    e.inUse && (e.pageA == x || e.pageB == x)
  }

  predicate SomeBacks(es: seq<DirEntry>, x: nat) {
    exists i :: 0 <= i < |es| && Backs(es[i], x)
  }

  lemma EntryMember(es: seq<DirEntry>, x: nat)
    ensures x in Sum(EntryBags(es)) <==> SomeBacks(es, x)
  {
    SumMember(EntryBags(es), x);
    forall i | 0 <= i < |es|
      ensures x in EntryBags(es)[i] <==> Backs(es[i], x)
    {
    }
    hide Sum;
  }

  lemma BackingMember(m: Mem, x: nat)
    ensures x in BackingPages(m) <==> exists b :: 0 <= b < |m.dirs| && SomeBacks(m.dirs[b].entries, x)
  {
    hide Sum, EntryBags, SomeBacks;
    SumMember(DirBags(m.dirs), x);
    forall b | 0 <= b < |m.dirs|
      ensures x in DirBags(m.dirs)[b] <==> SomeBacks(m.dirs[b].entries, x)
    {
      EntryMember(m.dirs[b].entries, x);
    }
  }

  /** `is_internal_page`: the pages the directory refers to, and no others. */
  method IsInternalPage(pager: Pager, id: nat) returns (internal: bool)
    ensures internal <==> id in Referenced(pager.Memory())
  {
    hide SomeBacks, BlockPages, BackingPages;
    ghost var m := pager.Memory();
    BlockMember(m, id);
    BackingMember(m, id);
    var i := 0;
    while i < |pager.blocks|
      invariant forall k :: 0 <= k < i && k < |m.blocks| ==> m.blocks[k].pageA != id && m.blocks[k].pageB != id
    {
      if pager.blocks[i].pageA == id || pager.blocks[i].pageB == id {
        return true;
      }
      i := i + 1;
    }
    var b := 0;
    while b < |pager.dirs|
      invariant forall k :: 0 <= k < b && k < |m.dirs| ==> !SomeBacks(m.dirs[k].entries, id)
    {
      var found := AnyBacks(pager.dirs[b].entries, id);
      if found {
        return true;
      }
      b := b + 1;
    }
    return false;
  }

  method AnyBacks(es: seq<DirEntry>, id: nat) returns (found: bool)
    ensures found <==> SomeBacks(es, id)
  {
    var i := 0;
    while i < |es|
      invariant forall k :: 0 <= k < i && k < |es| ==> !Backs(es[k], id)
    {
      if es[i].inUse && (es[i].pageA == id || es[i].pageB == id) {
        assert Backs(es[i], id);
        return true;
      }
      i := i + 1;
    }
    return false;
  }

  // ── Regular pages ──────────────────────────────────────────────────────────

  /** What the regular iterator has still to yield when it stands at `current`. */
  ghost function RegularFrom(m: Mem, current: nat): seq<nat>
    decreases m.meta.total - current
  {
    if current >= m.meta.total then []
    else if Allocated(m.meta, current) && current !in Referenced(m) then [current] + RegularFrom(m, current + 1)
    else RegularFrom(m, current + 1)
  }

  lemma {:induction false} RegularFromExact(m: Mem, current: nat)
    ensures Increasing(RegularFrom(m, current))
    ensures forall x: nat :: x in RegularFrom(m, current) <==>
              current <= x && x in AllocatedSet(m.meta) && x !in Referenced(m)
    decreases m.meta.total - current
  {
    hide Allocated, Referenced;
    InAllocatedSet(m.meta, current);
    if current < m.meta.total {
      RegularFromExact(m, current + 1);
      var rest := RegularFrom(m, current + 1);
      forall x: nat
        ensures x in [current] + rest <==> x == current || x in rest
      {
      }
      assert forall k :: 0 <= k < |rest| ==> rest[k] in rest;
    }
  }

  /** The regular iterator yields exactly the regular pages, in strictly increasing order. */
  lemma RegularEnumerated(m: Mem)
    ensures Increasing(RegularFrom(m, FIRST_DATA_PAGE))
    ensures ToSet(RegularFrom(m, FIRST_DATA_PAGE)) == Regular(m)
  {
    hide AllocatedSet, Referenced, RegularFrom;
    RegularFromExact(m, FIRST_DATA_PAGE);
  }

  class AllocatedPageIter {
    const pager: Pager
    var current: nat

    constructor (pager: Pager)
      ensures this.pager == pager && current == FIRST_DATA_PAGE
    {
      this.pager, current := pager, FIRST_DATA_PAGE;
    }

    /** What is left to yield. */
    ghost function Rest(): seq<nat>
      reads this, pager, pager.meta
    {
      RegularFrom(pager.Memory(), current)
    }

    method Next() returns (r: Option<nat>)
      requires pager.Valid()
      modifies this
      ensures old(Rest()) == (if r.Some? then [r.value] else []) + Rest()
      ensures r.None? ==> Rest() == []
    {
      hide Shaped, Shows, Referenced;
      ShapedBounds(pager.g, pager.State());
      while current < pager.meta.totalPages
        invariant old(Rest()) == Rest()
      {
        var id := current;
        current := current + 1;
        if Bit(pager.meta.bitmap[id / 8], id % 8) {
          var internal := IsInternalPage(pager, id);
          if !internal {
            return Some(id);
          }
        }
      }
      return None;
    }
  }

  // ── Protected pages ────────────────────────────────────────────────────────

  /** What the protected iterator has still to yield when it stands at slot `slot` of block b. */
  ghost function UsedFrom(g: Geometry, dirs: seq<DirPage>, b: nat, slot: nat): seq<nat>
    decreases |dirs| - b, if b < |dirs| then |dirs[b].entries| - slot else 0
  {
    if b >= |dirs| then []
    else if slot >= |dirs[b].entries| then UsedFrom(g, dirs, b + 1, 0)
    else if dirs[b].entries[slot].inUse then [IdAt(g, b, slot)] + UsedFrom(g, dirs, b, slot + 1)
    else UsedFrom(g, dirs, b, slot + 1)
  }

  lemma NextBlock(g: Geometry, b: nat)
    ensures IdAt(g, b, Epp(g)) == IdAt(g, b + 1, 0)
  {
  }

  /** Ids at or beyond a block are in that block or a later one. */
  lemma BeyondBlocks(g: Geometry, m: Mem, b: nat, slot: nat, id: nat)
    requires |m.dirs| <= b && IdAt(g, b, slot) <= id
    ensures !InUse(g, m, id)
  {
    SlotOfId(g, id);
    if BlockOf(g, id) < b {
      NextMultiple(BlockOf(g, id), b, Epp(g));
    }
  }

  lemma {:induction false} UsedFromExact(g: Geometry, m: Mem, b: nat, slot: nat)
    requires forall k :: 0 <= k < |m.dirs| ==> |m.dirs[k].entries| == Epp(g)
    requires slot <= Epp(g)
    ensures Increasing(UsedFrom(g, m.dirs, b, slot))
    ensures forall id: nat :: id in UsedFrom(g, m.dirs, b, slot) <==> IdAt(g, b, slot) <= id && InUse(g, m, id)
    decreases |m.dirs| - b, if b < |m.dirs| then |m.dirs[b].entries| - slot else 0
  {
    hide Epp, InUse;
    if b >= |m.dirs| {
      forall id: nat | IdAt(g, b, slot) <= id
        ensures !InUse(g, m, id)
      {
        BeyondBlocks(g, m, b, slot, id);
      }
    } else if slot == Epp(g) {
      NextBlock(g, b);
      UsedFromExact(g, m, b + 1, 0);
    } else {
      UsedFromExact(g, m, b, slot + 1);
      UsedHere(g, m, b, slot);
      var rest := UsedFrom(g, m.dirs, b, slot + 1);
      assert forall k :: 0 <= k < |rest| ==> rest[k] in rest;
      assert forall x: nat :: x in [IdAt(g, b, slot)] + rest <==> x == IdAt(g, b, slot) || x in rest;
    }
  }

  lemma UsedHere(g: Geometry, m: Mem, b: nat, slot: nat)
    requires HasEntry(m, b, slot) && slot < Epp(g)
    ensures InUse(g, m, IdAt(g, b, slot)) <==> m.dirs[b].entries[slot].inUse
    ensures IdAt(g, b, slot + 1) == IdAt(g, b, slot) + 1
  {
    hide Epp;
    IdOfSlot(g, b, slot);
  }

  /** The protected iterator yields exactly the ids in use, in strictly increasing order. */
  lemma ProtectedEnumerated(g: Geometry, m: Mem)
    requires Consistent(g, m)
    ensures Increasing(UsedFrom(g, m.dirs, 0, 0))
    ensures forall id: nat :: id in UsedFrom(g, m.dirs, 0, 0) <==> InUse(g, m, id)
  {
    hide Exact, MetaFits, Owned, Doubled, UsedFrom, InUse;
    forall k | 0 <= k < |m.dirs|
      ensures |m.dirs[k].entries| == Epp(g)
    {
      assert DirShape(g, m.dirs[k]);
    }
    UsedFromExact(g, m, 0, 0);
  }

  /** In a crash-free run the iterators yield exactly the pages the caller was given and has
      not freed, and exactly the protected ids the abstract run shows at its end. */
  lemma IteratorsInRuns(g: Geometry, ss: seq<Sys>, es: seq<Event>) returns (views: seq<View>)
    requires IsRun(g, ss, es) && NothingHalfway(ss, es)
    ensures IsAbsRun(views, es)
    ensures
      var m := ss[|es|].mem;
      && ToSet(RegularFrom(m, FIRST_DATA_PAGE)) == LivePages(es)
      && forall id: nat :: id in UsedFrom(g, m.dirs, 0, 0) <==> id in views[|es|].shown
  {
    hide Shows, IsRun, NothingHalfway, LivePages, Consistent, RegularFrom, UsedFrom, Regular, AbsNext, InUse;
    RunLength(g, ss, es);
    views := RunRefines(g, ss, es);
    var n := |es|;
    LiveIsRegular(g, ss, es);
    RegularEnumerated(ss[n].mem);
    ShownEntry(g, ss[n], views[n], 0);
    ProtectedEnumerated(g, ss[n].mem);
    forall id: nat
      ensures id in views[n].shown <==> InUse(g, ss[n].mem, id)
    {
      ShownEntry(g, ss[n], views[n], id);
    }
  }

  class AllocatedProtectedPageIter {
    const pager: Pager
    var blockIdx: nat
    var slotIdx: nat

    constructor (pager: Pager)
      ensures this.pager == pager && blockIdx == 0 && slotIdx == 0
    {
      this.pager, blockIdx, slotIdx := pager, 0, 0;
    }

    /** What is left to yield. */
    ghost function Rest(): seq<nat>
      reads this, pager, pager.meta
    {
      UsedFrom(pager.g, pager.dirs, blockIdx, slotIdx)
    }

    method Next() returns (r: Option<nat>)
      modifies this
      ensures old(Rest()) == (if r.Some? then [r.value] else []) + Rest()
      ensures r.None? ==> Rest() == []
    {
      while blockIdx < |pager.dirs|
        invariant old(Rest()) == Rest()
        decreases |pager.dirs| - blockIdx,
                  if blockIdx < |pager.dirs| then |pager.dirs[blockIdx].entries| - slotIdx else 0
      {
        var entries := pager.dirs[blockIdx].entries;
        if slotIdx >= |entries| {
          blockIdx, slotIdx := blockIdx + 1, 0;
        } else {
          var entry, id := entries[slotIdx], IdAt(pager.g, blockIdx, slotIdx);
          slotIdx := slotIdx + 1;
          if entry.inUse {
            return Some(id);
          }
        }
      }
      return None;
    }
  }
}
