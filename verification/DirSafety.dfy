/** The directory commit: what it makes durable, and how each change of one directory block
    carries the invariant and the contents along. */
module DirSafety {
  import opened Bytes
  import opened Results
  import opened Metadata
  import opened Layout
  import opened Disks
  import opened Recovery
  import opened PagerSpec
  import opened Ownership
  import opened Safety

  // ── Ids ────────────────────────────────────────────────────────────────────

  lemma MultipleAtLeast(k: nat, n: nat)
    requires k >= 1
    ensures k * n >= n
  {
  }

  lemma NextMultiple(i: nat, j: nat, n: nat)
    requires i < j
    ensures i * n + n <= j * n
  {
    MultipleAtLeast(j - i, n);
    assert (j - i) * n == j * n - i * n;
  }

  lemma DivIdentity(x: nat, n: nat)
    requires n > 0
    ensures Quotient(x, n) * n + Remainder(x, n) == x && Remainder(x, n) < n
  {
  }

  lemma QuotientUnique(q: nat, r: nat, q': nat, r': nat, n: nat)
    requires q * n + r == q' * n + r' && r < n && r' < n
    ensures q == q'
  {
    if q < q' {
      NextMultiple(q, q', n);
    } else if q' < q {
      NextMultiple(q', q, n);
    }
  }

  /** Ids and directory slots are in bijection: id = block * epp + slot. */
  lemma IdOfSlot(g: Geometry, b: nat, slot: nat)
    requires slot < Epp(g)
    ensures BlockOf(g, IdAt(g, b, slot)) == b && SlotOf(g, IdAt(g, b, slot)) == slot
  {
    var id := IdAt(g, b, slot);
    DivIdentity(id, Epp(g));
    QuotientUnique(b, slot, BlockOf(g, id), SlotOf(g, id), Epp(g));
  }

  lemma SlotOfId(g: Geometry, id: nat)
    ensures SlotOf(g, id) < Epp(g) && IdAt(g, BlockOf(g, id), SlotOf(g, id)) == id
  {
    DivIdentity(id, Epp(g));
  }

  lemma OtherId(g: Geometry, id: nat, other: nat)
    requires id != other
    ensures BlockOf(g, id) != BlockOf(g, other) || SlotOf(g, id) != SlotOf(g, other)
  {
    SlotOfId(g, id);
    SlotOfId(g, other);
  }

  // ── The invariant across directory changes ─────────────────────────────────

  lemma FlipConsistent(g: Geometry, m: Mem, b: nat)
    requires Consistent(g, m) && b < |m.blocks|
    ensures Consistent(g, m.(blocks := FlipBlock(m.blocks, b)))
  {
    hide Exact, MetaFits, Doubled, DirShape, BlockPages, BackingPages;
    var r := m.blocks[b];
    SetBlockBag(m, b, r.(active := r.active.Other()));
    var m' := m.(blocks := FlipBlock(m.blocks, b));
    assert Referenced(m') == Referenced(m) by {
      BackingOfDirs(m, m');
    }
  }

  lemma BackingOfDirs(m: Mem, m': Mem)
    requires m.dirs == m'.dirs
    ensures BackingPages(m) == BackingPages(m')
  {
  }

  lemma PagesOfBlocks(m: Mem, m': Mem)
    requires m.blocks == m'.blocks
    ensures BlockPages(m) == BlockPages(m')
  {
  }

  lemma OwnedMore(m: Mem, m': Mem, extra: multiset<nat>)
    requires Owned(m) && m.meta == m'.meta
    requires Referenced(m') == Referenced(m) + extra
    requires forall x: nat :: extra[x] <= 1
    requires forall x: nat :: x in extra ==>
               x !in Referenced(m) && FIRST_DATA_PAGE <= x && Allocated(m.meta, x)
    ensures Owned(m')
  {
    hide Referenced, Allocated;
    forall x: nat
      ensures Referenced(m')[x] <= 1
      ensures x in Referenced(m') ==> FIRST_DATA_PAGE <= x && Allocated(m'.meta, x)
    {
      assert Referenced(m)[x] <= 1 && extra[x] <= 1;
      if x in extra {
        assert Referenced(m)[x] == 0;
      }
    }
  }

  lemma OwnedFewer(m: Mem, m': Mem, extra: multiset<nat>)
    requires Owned(m) && m.meta == m'.meta
    requires Referenced(m') + extra == Referenced(m)
    ensures Owned(m')
  {
    hide Referenced, Allocated;
    forall x: nat
      ensures Referenced(m')[x] <= 1
      ensures x in Referenced(m') ==> FIRST_DATA_PAGE <= x && Allocated(m'.meta, x)
    {
      assert (Referenced(m') + extra)[x] == Referenced(m)[x];
      assert Referenced(m)[x] <= 1;
    }
  }

  lemma SetEntryShape(g: Geometry, m: Mem, b: nat, slot: nat, e: DirEntry)
    requires HasEntry(m, b, slot) && EntryFits(e) && e.activeSlot == e.generation % 2
    requires forall i :: 0 <= i < |m.dirs| ==> DirShape(g, m.dirs[i])
    ensures forall i :: 0 <= i < |m.dirs| ==> DirShape(g, SetEntry(m.dirs, b, slot, e)[i])
  {
    assert DirShape(g, m.dirs[b]);
  }

  lemma SetEntryReferenced(m: Mem, b: nat, slot: nat, e: DirEntry)
    requires HasEntry(m, b, slot)
    ensures Referenced(m.(dirs := SetEntry(m.dirs, b, slot, e))) + EntryBag(m.dirs[b].entries[slot])
         == Referenced(m) + EntryBag(e)
  {
    hide BackingPages, BlockPages;
    var m' := m.(dirs := SetEntry(m.dirs, b, slot, e));
    SetEntryBag(m, b, slot, e);
    PagesOfBlocks(m, m');
    AddLeft(BlockPages(m), BackingPages(m'), EntryBag(m.dirs[b].entries[slot]), BackingPages(m), EntryBag(e));
  }

  /** An unused slot takes two freshly allocated pages. */
  lemma TakeEntryConsistent(g: Geometry, m: Mem, b: nat, slot: nat, e: DirEntry)
    requires Consistent(g, m) && HasEntry(m, b, slot) && !m.dirs[b].entries[slot].inUse
    requires e.inUse && EntryFits(e) && e.activeSlot == e.generation % 2 && e.pageA != e.pageB
    requires FreshPage(m, e.pageA) && FreshPage(m, e.pageB)
    ensures Consistent(g, m.(dirs := SetEntry(m.dirs, b, slot, e)))
  {
    hide Exact, MetaFits, Doubled, DirShape, Referenced, Allocated, EntryFits;
    SetEntryShape(g, m, b, slot, e);
    SetEntryReferenced(m, b, slot, e);
    var m' := m.(dirs := SetEntry(m.dirs, b, slot, e));
    assert Referenced(m') == Referenced(m) + EntryBag(e);
    OwnedMore(m, m', EntryBag(e));
  }

  /** Allocated, above the reserved pages, and referenced by nothing yet. */
  ghost predicate FreshPage(m: Mem, x: nat) {
    FIRST_DATA_PAGE <= x && Allocated(m.meta, x) && x !in Referenced(m)
  }

  lemma DropEntryConsistent(g: Geometry, m: Mem, b: nat, slot: nat)
    requires Consistent(g, m) && HasEntry(m, b, slot)
    ensures Consistent(g, m.(dirs := SetEntry(m.dirs, b, slot, m.dirs[b].entries[slot].(inUse := false))))
  {
    hide Exact, MetaFits, Doubled, Referenced, Allocated, EntryFits;
    var e := m.dirs[b].entries[slot];
    var e' := e.(inUse := false);
    assert DirShape(g, m.dirs[b]);
    var m' := m.(dirs := SetEntry(m.dirs, b, slot, e'));
    assert EntryFits(e') by {
      FitsIgnoresUse(e);
    }
    SetEntryShape(g, m, b, slot, e');
    SetEntryReferenced(m, b, slot, e');
    assert Referenced(m') + EntryBag(e) == Referenced(m);
    OwnedFewer(m, m', EntryBag(e));
  }

  lemma FitsIgnoresUse(e: DirEntry)
    requires EntryFits(e)
    ensures EntryFits(e.(inUse := false))
  {
  }

  /** Flipping an entry's copies leaves the pages it refers to as they were. */
  lemma FlipEntryConsistent(g: Geometry, m: Mem, b: nat, slot: nat, checksum: u32)
    requires Consistent(g, m) && HasEntry(m, b, slot)
    requires m.dirs[b].entries[slot].generation + 1 < U64_LIMIT
    ensures Consistent(g, m.(dirs := SetEntry(m.dirs, b, slot, Flipped(m.dirs[b].entries[slot], checksum))))
  {
    hide Exact, MetaFits, Doubled, Referenced, Allocated;
    var e := m.dirs[b].entries[slot];
    var e' := Flipped(e, checksum);
    assert DirShape(g, m.dirs[b]);
    var m' := m.(dirs := SetEntry(m.dirs, b, slot, e'));
    SetEntryShape(g, m, b, slot, e');
    SetEntryReferenced(m, b, slot, e');
    assert Referenced(m') + EntryBag(e) == Referenced(m) + EntryBag(e);
    assert EntryBag(e) == EntryBag(e');
    SameSum(Referenced(m'), Referenced(m), EntryBag(e));
    assert Owned(m');
  }

  lemma SameSum(a: multiset<nat>, b: multiset<nat>, c: multiset<nat>)
    requires a + c == b + c
    ensures a == b
  {
    forall x: nat
      ensures a[x] == b[x]
    {
      assert (a + c)[x] == (b + c)[x];
    }
  }

  lemma AppendReferenced(g: Geometry, m: Mem, a: nat, b: nat, e: DirEntry)
    requires e.inUse
    ensures Referenced(AppendBlock(g, m, a, b, e)) == Referenced(m) + multiset{a, b, e.pageA, e.pageB}
  {
    hide Sum, RefBags, DirBags, EntryBags;
    var m' := AppendBlock(g, m, a, b, e);
    var d := m'.dirs[|m.dirs|];
    var r := DirBlockRef(a, b, A);
    AddBlockBag(m, r, d);
    NewDirBag(g, e);
    assert BlockPages(m') == BlockPages(m) + RefBag(r);
    assert BackingPages(m') == BackingPages(m) + EntryBag(e);
  }

  lemma AppendShape(g: Geometry, m: Mem, a: nat, b: nat, e: DirEntry)
    requires EntryFits(e) && e.activeSlot == e.generation % 2
    requires forall i :: 0 <= i < |m.dirs| ==> DirShape(g, m.dirs[i])
    ensures var m' := AppendBlock(g, m, a, b, e);
      forall i :: 0 <= i < |m'.dirs| ==> DirShape(g, m'.dirs[i])
  {
    var m' := AppendBlock(g, m, a, b, e);
    assert DirShape(g, m'.dirs[|m.dirs|]);
  }

  /** A new block takes four distinct freshly allocated pages. */
  lemma AppendConsistent(g: Geometry, m: Mem, a: nat, b: nat, e: DirEntry)
    requires Consistent(g, m) && |m.blocks| < MaxDirBlocks(g.pageSize)
    requires e.inUse && EntryFits(e) && e.activeSlot == e.generation % 2
    requires a != b && a != e.pageA && a != e.pageB && b != e.pageA && b != e.pageB && e.pageA != e.pageB
    requires FreshPage(m, a) && FreshPage(m, b) && FreshPage(m, e.pageA) && FreshPage(m, e.pageB)
    ensures Consistent(g, AppendBlock(g, m, a, b, e))
  {
    hide Exact, MetaFits, Doubled, DirShape, Referenced, Allocated, EntryFits;
    AppendShape(g, m, a, b, e);
    AppendReferenced(g, m, a, b, e);
    OwnedMore(m, AppendBlock(g, m, a, b, e), multiset{a, b, e.pageA, e.pageB});
  }

  // ── Pages that may be written ──────────────────────────────────────────────

  /** A page nothing refers to may be written. */
  lemma UnreferencedUntouchable(g: Geometry, m: Mem, x: nat)
    requires FIRST_DATA_PAGE <= x && x !in Referenced(m)
    ensures Untouchable(g, m, x)
  {
    forall b | 0 <= b < |m.blocks|
      ensures m.blocks[b].Active() != x
    {
      BlockReferenced(m, b);
      assert m.blocks[b].Active() in RefBag(m.blocks[b]);
    }
    forall id: nat | InUse(g, m, id)
      ensures ActivePhys(EntryOf(g, m, id)) != x
    {
      EntryReferenced(m, BlockOf(g, id), SlotOf(g, id));
      assert ActivePhys(EntryOf(g, m, id)) in EntryBag(EntryOf(g, m, id));
    }
  }

  /** The inactive page of a directory block may be written. */
  lemma InactiveDirUntouchable(g: Geometry, m: Mem, b: nat)
    requires Owned(m) && b < |m.blocks|
    ensures Untouchable(g, m, m.blocks[b].Inactive())
  {
    hide Owned;
    var x := m.blocks[b].Inactive();
    BlockPageOwned(m, b);
    assert x in RefBag(m.blocks[b]);
    forall c | 0 <= c < |m.blocks|
      ensures m.blocks[c].Active() != x
    {
      if c == b {
        PairDistinct(m, b);
      } else {
        BlocksDistinct(m, b, c);
        assert m.blocks[c].Active() in RefBag(m.blocks[c]);
      }
    }
    forall id: nat | InUse(g, m, id)
      ensures ActivePhys(EntryOf(g, m, id)) != x
    {
      BlocksAndEntriesDistinct(m, b, BlockOf(g, id), SlotOf(g, id));
      assert ActivePhys(EntryOf(g, m, id)) in EntryBag(EntryOf(g, m, id));
    }
  }

  /** The inactive copy of a protected page may be written. */
  lemma InactiveCopyUntouchable(g: Geometry, m: Mem, id: nat)
    requires Owned(m) && InUse(g, m, id) && EntryOf(g, m, id).activeSlot <= 1
    ensures Untouchable(g, m, InactivePhys(EntryOf(g, m, id)))
  {
    hide Owned;
    var e := EntryOf(g, m, id);
    var x := InactivePhys(e);
    EntryPagesOwned(m, BlockOf(g, id), SlotOf(g, id));
    assert x in EntryBag(e);
    forall c | 0 <= c < |m.blocks|
      ensures m.blocks[c].Active() != x
    {
      BlocksAndEntriesDistinct(m, c, BlockOf(g, id), SlotOf(g, id));
      assert m.blocks[c].Active() in RefBag(m.blocks[c]);
    }
    forall other: nat | InUse(g, m, other)
      ensures ActivePhys(EntryOf(g, m, other)) != x
    {
      if other == id {
        CopiesDistinct(m, BlockOf(g, id), SlotOf(g, id));
      } else {
        OtherId(g, id, other);
        EntriesDistinct(m, BlockOf(g, id), SlotOf(g, id), BlockOf(g, other), SlotOf(g, other));
        assert ActivePhys(EntryOf(g, m, other)) in EntryBag(EntryOf(g, m, other));
      }
    }
  }

  // ── The directory commit ───────────────────────────────────────────────────

  /** The blocks in memory are the durable ones except for block b, which may be new. */
  ghost predicate OneBlockPending(s: Sys, b: nat) {
    && s.mem.active == s.dur.active
    && b < |s.mem.blocks| == |s.mem.dirs|
    && |s.dur.blocks| == |s.dur.dirs|
    && (|s.dur.blocks| == |s.mem.blocks| || b == |s.dur.blocks| == |s.mem.blocks| - 1)
    && forall c :: 0 <= c < |s.mem.blocks| && c != b ==> s.mem.blocks[c] == s.dur.blocks[c]
  }

  /** What the directory commit makes durable. */
  ghost function Published(s: Sys, b: nat): Mem
    requires b < |s.mem.blocks| && b < |s.mem.dirs|
  {
    Mem(s.dur.meta, s.mem.active, FlipBlock(s.mem.blocks, b), Landed(s, b))
  }

  lemma CommitDirEncodes(g: Geometry, s: Sys, b: nat)
    requires Settled(s.disk) && OneBlockPending(s, b)
    requires Encodes(g, s.dur, s.disk.durable[0 := s.disk.durable[0]]) && CleanCore(s.dur, s.disk)
    requires Untouchable(g, s.dur, s.mem.blocks[b].Inactive())
    requires FIRST_DATA_PAGE <= s.mem.blocks[b].Inactive() < |s.disk.mapped|
    requires forall c :: 0 <= c < |s.dur.blocks| ==> s.dur.blocks[c].Active() >= FIRST_DATA_PAGE
    ensures
      var next := Published(s, b);
      var i := s.mem.blocks[b].Inactive();
      var d2 := Flush(Store(s.disk, i, DirBytes(g, s.mem.dirs[b])), i);
      && Encodes(g, next, d2.durable[0 := Page0(g, next)]) && CleanCore(next, d2)
      && MappedPage(d2, s.mem.active.PageId()) == MetaBytes(g, s.dur.meta)
  {
    hide Page0, MetaBytes, DirBytes;
    var next := Published(s, b);
    var i := s.mem.blocks[b].Inactive();
    var d2 := Flush(Store(s.disk, i, DirBytes(g, s.mem.dirs[b])), i);
    assert next.blocks[b].Active() == i;
    forall c | 0 <= c < |next.blocks|
      ensures next.blocks[c].Active() !in d2.dirty && next.blocks[c].Active() < |d2.durable|
      ensures d2.durable[0 := Page0(g, next)][next.blocks[c].Active()] == DirBytes(g, next.dirs[c])
    {
      if c != b {
        assert next.blocks[c].Active() == s.dur.blocks[c].Active() >= FIRST_DATA_PAGE;
      }
    }
  }

  lemma BlocksAboveReserved(m: Mem)
    requires Owned(m)
    ensures forall c :: 0 <= c < |m.blocks| ==>
              m.blocks[c].Active() >= FIRST_DATA_PAGE && m.blocks[c].Inactive() >= FIRST_DATA_PAGE
  {
    forall c | 0 <= c < |m.blocks|
      ensures m.blocks[c].Active() >= FIRST_DATA_PAGE && m.blocks[c].Inactive() >= FIRST_DATA_PAGE
    {
      BlockPageOwned(m, c);
    }
  }

  /** Before page 0 is rewritten, the disk already holds all the rest of the new state. */
  lemma CommitDirPrepared(g: Geometry, s: Sys, b: nat, a: Abs, a': Abs)
    requires Durable(g, s, a) && OneBlockPending(s, b) && Consistent(g, Published(s, b))
    requires Untouchable(g, s.dur, s.mem.blocks[b].Inactive())
    requires
      var i := s.mem.blocks[b].Inactive();
      i < |s.disk.mapped| &&
      Holds(g, Published(s, b), Flush(Store(s.disk, i, DirBytes(g, s.mem.dirs[b])), i), a')
    ensures
      var next := Published(s, b);
      var i := s.mem.blocks[b].Inactive();
      var d2 := Flush(Store(s.disk, i, DirBytes(g, s.mem.dirs[b])), i);
      && Survives(g, next, d2, Page0(g, next), a')
      && MappedPage(d2, s.mem.active.PageId()) == MetaBytes(g, s.dur.meta)
  {
    hide Page0, MetaBytes, DirBytes, Untouchable, Encodes, CleanCore, Holds, Exact, MetaFits, Doubled, DirShape, Owned;
    BlocksAboveReserved(s.dur);
    BlocksAboveReserved(Published(s, b));
    assert s.mem.blocks[b].Inactive() == Published(s, b).blocks[b].Active();
    CommitDirEncodes(g, s, b);
  }

  lemma CommitDirPublishes(g: Geometry, s: Sys, b: nat)
    requires b < |s.mem.blocks| == |s.mem.dirs| && s.mapped
    requires
      var i := s.mem.blocks[b].Inactive();
      var d2 := Flush(Store(s.disk, i, DirBytes(g, s.mem.dirs[b])), i);
      MappedPage(d2, s.mem.active.PageId()) == MetaBytes(g, s.dur.meta)
    ensures
      var next := Published(s, b);
      CommitDir(g, s, b) ==
      (Publish(s, s.mem.blocks[b].Inactive(), DirBytes(g, s.mem.dirs[b]), Page0(g, next), next)
         .(mem := s.mem.(blocks := FlipBlock(s.mem.blocks, b))), Ok(()))
  {
    hide Publish, Page0Bytes, MetaBytes, DirBytes, Store, Flush, MappedPage, Super, Landed;
  }

  /** What a directory commit stores is one page long. */
  lemma CommitDirPages(g: Geometry, s: Sys, b: nat)
    requires OneBlockPending(s, b) && Consistent(g, Published(s, b))
    ensures |DirBytes(g, s.mem.dirs[b])| == |Page0(g, Published(s, b))| == g.pageSize
  {
    hide Exact, MetaFits, Doubled, Owned, DirBytes, Page0Bytes;
    var next := Published(s, b);
    CommitPages(g, next);
    ConsistentFits(g, next);
    assert next.dirs[b] == s.mem.dirs[b];
    DirRoundTrip(g, next.dirs[b]);
  }

  /** A directory commit publishes the changed block and carries the contents from a to a'. */
  lemma CommitDirSafe(g: Geometry, s: Sys, b: nat, a: Abs, a': Abs, x: Abs, y: Abs)
    requires Durable(g, s, a) && s.mapped && OneBlockPending(s, b)
    requires Consistent(g, Published(s, b))
    requires Untouchable(g, s.dur, s.mem.blocks[b].Inactive())
    requires
      var i := s.mem.blocks[b].Inactive();
      i < |s.disk.mapped| &&
      Holds(g, Published(s, b), Flush(Store(s.disk, i, DirBytes(g, s.mem.dirs[b])), i), a')
    requires TraceOk(g, s.trace, x, y)
    requires (a == a' && (a == x || a == y)) || (a == x && a' == y)
    ensures
      var (s', r) := CommitDir(g, s, b);
      && r.Ok? && s'.mapped && |s'.disk.mapped| == |s.disk.mapped|
      && s'.mem == s.mem.(blocks := FlipBlock(s.mem.blocks, b))
      && s'.dur == Published(s, b)
      && Durable(g, s', a') && TraceOk(g, s'.trace, x, y)
  {
    hide TraceOk, Page0, MetaBytes, DirBytes, Untouchable, Survives, Holds, Publish, CommitDir, Sound, Consistent, Sized,
         Landed, Store, Flush;
    var next := Published(s, b);
    var i := s.mem.blocks[b].Inactive();
    var buf := DirBytes(g, s.mem.dirs[b]);
    CommitDirPages(g, s, b);
    CommitDirPrepared(g, s, b, a, a');
    CommitDirPublishes(g, s, b);
    PublishSafe(g, s, i, buf, Page0(g, next), next, a, a', x, y);
    PublishLength(s, i, buf, Page0(g, next), next);
  }

  lemma PublishLength(s: Sys, i: nat, page: Page, page0: Page, next: Mem)
    ensures var s' := Publish(s, i, page, page0, next);
      && |s'.disk.mapped| == |s.disk.mapped| && s'.dur == next && s'.mapped == s.mapped && s'.mem == s.mem
  {
  }

  /** What a directory commit leaves in memory: the pending state with the block flipped. */
  lemma CommitDirResult(g: Geometry, s: Sys, b: nat)
    requires b < |s.mem.blocks| == |s.mem.dirs| && s.mapped
    ensures
      var (s', r) := CommitDir(g, s, b);
      r.Ok? && s'.mem == s.mem.(blocks := FlipBlock(s.mem.blocks, b)) && s'.mapped
  {
    hide Page0Bytes, DirBytes, Store, Flush;
  }
}
