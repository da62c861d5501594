/** What the pager's methods rely on in every state, even after the mapping has been lost:
    no slice is out of range, no buffer overflows and growth always finds a page. */
module Shape {
  import opened Bytes
  import opened Results
  import opened Metadata
  import opened Layout
  import opened Disks
  import opened Recovery
  import opened PagerSpec
  import opened Ownership
  import opened Safety
  import opened RawAllocation

  /** A page of the file that is not reserved. */
  predicate InData(total: nat, p: nat) {
    FIRST_DATA_PAGE <= p < total
  }

  ghost predicate EntryInside(total: nat, e: DirEntry) {
    e.inUse ==> InData(total, e.pageA) && InData(total, e.pageB) && e.activeSlot <= 1
  }

  ghost predicate DirInside(g: Geometry, total: nat, d: DirPage) {
    |d.entries| == Epp(g) && forall i :: 0 <= i < |d.entries| ==> EntryInside(total, d.entries[i])
  }

  ghost predicate DirectoryInside(g: Geometry, total: nat, blocks: seq<DirBlockRef>, dirs: seq<DirPage>) {
    && |dirs| == |blocks| <= MaxDirBlocks(g.pageSize)
    && (forall i :: 0 <= i < |blocks| ==> InData(total, blocks[i].pageA) && InData(total, blocks[i].pageB))
    && forall i :: 0 <= i < |dirs| ==> DirInside(g, total, dirs[i])
  }

  ghost predicate Shaped(g: Geometry, s: Sys) {
    && Exact(s.mem.meta) && Room(g, s.mem.meta.total)
    && DirectoryInside(g, s.mem.meta.total, s.mem.blocks, s.mem.dirs)
    && s.mem.meta.total <= |s.disk.mapped| == |s.disk.durable| && Sized(g, s.disk)
  }

  lemma ShapedTotal(g: Geometry, s: Sys)
    requires Shaped(g, s)
    ensures s.mem.meta.total > 0
  {
    hide Sized, DirectoryInside;
  }

  lemma SteadyShaped(g: Geometry, s: Sys, a: Abs)
    requires Steady(g, s, a)
    ensures Shaped(g, s)
  {
    hide Steady, Exact, Owned, DirInside, Doubled, DirShape, Sized;
    var m := s.mem;
    SteadyMeta(g, s, a);
    SteadySizes(g, s, a);
    OwnedOf(g, m);
    forall i | 0 <= i < |m.blocks|
      ensures InData(m.meta.total, m.blocks[i].pageA) && InData(m.meta.total, m.blocks[i].pageB)
    {
      BlockPageOwned(m, i);
    }
    forall i | 0 <= i < |m.dirs|
      ensures DirInside(g, m.meta.total, m.dirs[i])
    {
      DirIsInside(g, m, i);
    }
  }

  lemma SteadySizes(g: Geometry, s: Sys, a: Abs)
    requires Steady(g, s, a)
    ensures s.mem.meta.total <= |s.disk.mapped| == |s.disk.durable| && Sized(g, s.disk)
  {
    hide Survives, Sized, Consistent, DirsLag;
  }

  lemma DirIsInside(g: Geometry, m: Mem, b: nat)
    requires Consistent(g, m) && b < |m.dirs|
    ensures DirInside(g, m.meta.total, m.dirs[b])
  {
    hide Exact, MetaFits, Referenced;
    assert DirShape(g, m.dirs[b]);
    forall i | 0 <= i < |m.dirs[b].entries|
      ensures EntryInside(m.meta.total, m.dirs[b].entries[i])
    {
      if m.dirs[b].entries[i].inUse {
        EntryPagesOwned(m, b, i);
      }
    }
  }

  /** The same directory in a file at least as long. */
  lemma InsideLonger(g: Geometry, total: nat, longer: nat, blocks: seq<DirBlockRef>, dirs: seq<DirPage>)
    requires DirectoryInside(g, total, blocks, dirs) && total <= longer
    ensures DirectoryInside(g, longer, blocks, dirs)
  {
    forall i | 0 <= i < |dirs|
      ensures DirInside(g, longer, dirs[i])
    {
      assert DirInside(g, total, dirs[i]);
      forall j | 0 <= j < |dirs[i].entries|
        ensures EntryInside(longer, dirs[i].entries[j])
      {
        assert EntryInside(total, dirs[i].entries[j]);
      }
    }
  }

  lemma SetEntryInside(g: Geometry, total: nat, blocks: seq<DirBlockRef>, dirs: seq<DirPage>,
                       b: nat, slot: nat, e: DirEntry)
    requires DirectoryInside(g, total, blocks, dirs) && b < |dirs| && slot < |dirs[b].entries|
    requires EntryInside(total, e)
    ensures DirectoryInside(g, total, blocks, SetEntry(dirs, b, slot, e))
  {
    hide EntryInside;
    assert DirInside(g, total, dirs[b]);
  }

  lemma EntryIsInside(g: Geometry, total: nat, blocks: seq<DirBlockRef>, dirs: seq<DirPage>, b: nat, slot: nat)
    requires DirectoryInside(g, total, blocks, dirs) && b < |dirs| && slot < |dirs[b].entries|
    ensures EntryInside(total, dirs[b].entries[slot])
  {
    hide EntryInside;
    assert DirInside(g, total, dirs[b]);
  }

  /** An empty directory page with its first slot taken. */
  lemma NewDirInside(g: Geometry, total: nat, e: DirEntry)
    requires EntryInside(total, e)
    ensures DirInside(g, total, NewDirPage(g.pageSize).(entries := NewDirPage(g.pageSize).entries[0 := e]))
  {
  }

  /** Taking the free slot, in the file as it is. */
  lemma TakeShaped(g: Geometry, s: Sys, id: nat, n: nat)
    requires Shaped(g, s) && FreeSlot(s.mem.meta) == Some(id) && n > 0 && Capacity(g, s.mem.meta, n)
    ensures Shaped(g, WithMeta(s, Mark(s.mem.meta, id)))
    ensures Capacity(g, Mark(s.mem.meta, id), n - 1)
    ensures InData(s.mem.meta.total, id)
  {
    hide FreeSlot, Mark, DirectoryInside, Capacity, BitAt, Sized;
    FreeSlotIsSmallest(s.mem.meta);
    MarkAllocates(s.mem.meta, id);
    CapacityTake(g, s.mem.meta, Mark(s.mem.meta, id), n);
    assert id !in Range(FIRST_DATA_PAGE);
  }

  /** The doubled file: the next free slot exists. */
  lemma GrowShaped(g: Geometry, s: Sys, s': Sys, n: nat)
    requires Shaped(g, s) && FreeSlot(s.mem.meta).None? && n > 0 && Capacity(g, s.mem.meta, n)
    requires s'.mem == s.mem.(meta := GrowTo(s.mem.meta, 2 * s.mem.meta.total))
    requires |s'.disk.mapped| == |s'.disk.durable| == 2 * s.mem.meta.total && Sized(g, s'.disk)
    ensures Shaped(g, s') && Capacity(g, s'.mem.meta, n) && FreeSlot(s'.mem.meta).Some?
  {
    hide FreeSlot, GrowTo, DirectoryInside, Capacity, BitAt, Sized;
    var m := s.mem.meta;
    var meta := GrowTo(m, 2 * m.total);
    FreeSlotIsSmallest(m);
    GrowTotals(m, 2 * m.total);
    GrowKeepsAllocated(m, 2 * m.total);
    CapacityGrow(g, m, meta, n);
    FreeSlotIsSmallest(meta);
    InsideLonger(g, m.total, meta.total, s.mem.blocks, s.mem.dirs);
  }

  /** Clearing the bit of any page that is not reserved. */
  lemma UnmarkShaped(g: Geometry, s: Sys, id: nat)
    requires Shaped(g, s) && FIRST_DATA_PAGE <= id
    ensures Shaped(g, WithMeta(s, Unmark(s.mem.meta, id)))
  {
    hide DirectoryInside, Unmark, Allocated, Sized;
    if Allocated(s.mem.meta, id) {
      UnmarkFrees(s.mem.meta, id);
    } else {
      UnmarkNothing(s.mem.meta, id);
    }
  }

  lemma UnmarkNothing(m: Meta, id: nat)
    requires !Allocated(m, id)
    ensures Unmark(m, id) == m
  {
  }

  lemma BumpShaped(g: Geometry, s: Sys)
    requires Shaped(g, s)
    ensures Shaped(g, WithMeta(s, NextGeneration(s.mem.meta)))
  {
    hide DirectoryInside, Sized;
    BumpExact(s.mem.meta);
  }

  lemma ShapedSized(g: Geometry, s: Sys)
    requires Shaped(g, s)
    ensures Sized(g, s.disk)
  {
  }

  lemma ShapedBounds(g: Geometry, s: Sys)
    requires Shaped(g, s)
    ensures 4 <= s.mem.meta.total <= |s.disk.mapped|
    ensures |s.mem.meta.bitmap| == BytesFor(s.mem.meta.total)
    ensures 24 + |s.mem.meta.bitmap| <= g.pageSize - 4
    ensures |s.mem.dirs| == |s.mem.blocks| <= MaxDirBlocks(g.pageSize)
  {
  }

  lemma SetEntryShaped(g: Geometry, s: Sys, b: nat, slot: nat, e: DirEntry)
    requires Shaped(g, s) && HasEntry(s.mem, b, slot) && EntryInside(s.mem.meta.total, e)
    ensures Shaped(g, s.(mem := Rewritten(s.mem, b, slot, e)))
  {
    hide DirectoryInside, EntryInside, Exact, Sized;
    SetEntryInside(g, s.mem.meta.total, s.mem.blocks, s.mem.dirs, b, slot, e);
  }

  lemma EntryInShape(g: Geometry, s: Sys, b: nat, slot: nat)
    requires Shaped(g, s) && HasEntry(s.mem, b, slot)
    ensures EntryInside(s.mem.meta.total, s.mem.dirs[b].entries[slot])
  {
    hide DirectoryInside, EntryInside, Exact, Sized;
    EntryIsInside(g, s.mem.meta.total, s.mem.blocks, s.mem.dirs, b, slot);
  }

  lemma AppendShaped(g: Geometry, s: Sys, a: nat, b: nat, e: DirEntry)
    requires Shaped(g, s) && |s.mem.blocks| < MaxDirBlocks(g.pageSize)
    requires InData(s.mem.meta.total, a) && InData(s.mem.meta.total, b) && EntryInside(s.mem.meta.total, e)
    ensures Shaped(g, s.(mem := AppendBlock(g, s.mem, a, b, e)))
  {
    hide DirInside, EntryInside, Exact, NewDirPage, Sized;
    NewDirInside(g, s.mem.meta.total, e);
  }

  lemma KeepsShape(g: Geometry, s: Sys, s': Sys)
    requires Shaped(g, s)
    requires s'.mem == s.mem.(active := s'.mem.active)
    requires |s'.disk.mapped| == |s.disk.mapped| && |s'.disk.durable| == |s.disk.durable| && Sized(g, s'.disk)
    ensures Shaped(g, s')
  {
    hide DirectoryInside, Exact, Sized;
  }

  lemma BlockInside(g: Geometry, s: Sys, b: nat)
    requires Shaped(g, s) && b < |s.mem.blocks|
    ensures InData(s.mem.meta.total, s.mem.blocks[b].pageA) && InData(s.mem.meta.total, s.mem.blocks[b].pageB)
    ensures |s.mem.dirs| == |s.mem.blocks| && |s.mem.dirs[b].entries| == DirEntriesPerPage(g.pageSize)
  {
    hide Exact;
    assert DirInside(g, s.mem.meta.total, s.mem.dirs[b]);
  }

  lemma FlipShape(g: Geometry, s: Sys, s': Sys, b: nat)
    requires Shaped(g, s) && b < |s.mem.blocks|
    requires s'.mem == s.mem.(blocks := FlipBlock(s.mem.blocks, b))
    requires |s'.disk.mapped| == |s.disk.mapped| && |s'.disk.durable| == |s.disk.durable| && Sized(g, s'.disk)
    ensures Shaped(g, s')
  {
    hide Exact, DirInside, Sized;
  }

  lemma UngrownShape(g: Geometry, s: Sys, env: Env)
    requires Shaped(g, s) && Grow(g, s, env).1.Err?
    ensures Shaped(g, Grow(g, s, env).0)
  {
    hide DirectoryInside, Exact, GrowTo, Sized;
    ResizeSized(g, s.disk, 2 * s.mem.meta.total);
    ResizeSized(g, SetLen(g, s.disk, 2 * s.mem.meta.total), s.mem.meta.total);
  }
}
