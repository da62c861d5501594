/** Changes of the directory: what one directory commit does to the contents, also when some
    entries of its block were freed earlier, while the file was not mapped. */
module DirChanges {
  import opened Bytes
  import opened Results
  import opened Metadata
  import opened Layout
  import opened Disks
  import opened Recovery
  import opened PagerSpec
  import opened Ownership
  import opened Safety
  import opened DirSafety
  import opened RawAllocation

  // ── One entry changes, others may be dropped ───────────────────────────────

  /** The two directories give every id the same entry, except that m' gives `id` entry e. */
  ghost predicate OneEntryDiffers(g: Geometry, m: Mem, m': Mem, id: nat, e: DirEntry) {
    && EntryOf(g, m', id) == e
    && forall other: nat :: other != id ==> EntryOf(g, m', other) == EntryOf(g, m, other)
  }

  /** m' gives `id` entry e; every other id keeps its entry or has lost it. */
  ghost predicate DirMoves(g: Geometry, m: Mem, m': Mem, id: nat, e: DirEntry) {
    && EntryOf(g, m', id) == e
    && forall other: nat :: other != id ==> EntryLags(EntryOf(g, m', other), EntryOf(g, m, other))
  }

  lemma SetDiffers(g: Geometry, m: Mem, b: nat, slot: nat, e: DirEntry)
    requires HasEntry(m, b, slot) && slot < Epp(g)
    ensures OneEntryDiffers(g, m, Rewritten(m, b, slot, e), IdAt(g, b, slot), e)
  {
    var m' := Rewritten(m, b, slot, e);
    IdOfSlot(g, b, slot);
    forall other: nat | other != IdAt(g, b, slot)
      ensures EntryOf(g, m', other) == EntryOf(g, m, other)
    {
      OtherId(g, IdAt(g, b, slot), other);
    }
  }

  lemma AppendDiffers(g: Geometry, m: Mem, a: nat, b: nat, e: DirEntry)
    ensures OneEntryDiffers(g, m, AppendBlock(g, m, a, b, e), IdAt(g, |m.dirs|, 0), e)
  {
    var m' := AppendBlock(g, m, a, b, e);
    var id := IdAt(g, |m.dirs|, 0);
    IdOfSlot(g, |m.dirs|, 0);
    forall other: nat | other != id
      ensures EntryOf(g, m', other) == EntryOf(g, m, other)
    {
      OtherId(g, id, other);
    }
  }

  lemma LagEntry(g: Geometry, m: Mem, f: Mem, id: nat)
    requires DirsLag(m.dirs, f.dirs)
    ensures EntryLags(EntryOf(g, m, id), EntryOf(g, f, id))
  {
    hide BlockOf, SlotOf;
    var b := BlockOf(g, id);
    if b < |m.dirs| {
      assert PageLags(m.dirs[b], f.dirs[b]);
    }
  }

  /** What memory shows in use is in use on disk, with the same entry. */
  lemma LagInUse(g: Geometry, m: Mem, f: Mem, id: nat)
    requires DirsLag(m.dirs, f.dirs) && InUse(g, m, id)
    ensures InUse(g, f, id) && EntryOf(g, m, id) == EntryOf(g, f, id)
  {
    hide EntryOf, DirsLag;
    LagEntry(g, m, f, id);
  }

  /** The same entry written on both sides of a lag, when block b lands whole. */
  lemma SetEntryLags(dirs: seq<DirPage>, durable: seq<DirPage>, b: nat, slot: nat, e: DirEntry)
    requires DirsLag(dirs, durable) && b < |dirs| && slot < |dirs[b].entries|
    ensures slot < |durable[b].entries|
    ensures DirsLag(durable[b := SetEntry(dirs, b, slot, e)[b]], SetEntry(durable, b, slot, e))
    ensures DirsLag(SetEntry(dirs, b, slot, e), durable[b := SetEntry(dirs, b, slot, e)[b]])
  {
    assert PageLags(dirs[b], durable[b]);
  }

  lemma LagMoves(g: Geometry, f: Mem, f1: Mem, n: Mem, id: nat, e: DirEntry)
    requires OneEntryDiffers(g, f, f1, id, e) && DirsLag(n.dirs, f1.dirs) && EntryOf(g, n, id) == e
    ensures DirMoves(g, f, n, id, e)
  {
    hide EntryOf, DirsLag;
    forall other: nat | other != id
      ensures EntryLags(EntryOf(g, n, other), EntryOf(g, f, other))
    {
      LagEntry(g, n, f1, other);
    }
  }

  // ── The contents after a directory commit ──────────────────────────────────

  /** Contents a after a commit to directory m' that concerned `id`: ids m' no longer has are
      gone, and `id` is what v says, `None` for freed. */
  function After(g: Geometry, m': Mem, a: Abs, id: nat, v: Option<Option<Page>>): Abs {
    var kept := map k | k in a && k != id && InUse(g, m', k) :: a[k];
    match v
    case None => kept
    case Some(page) => kept[id := page]
  }

  lemma HoldsMoved(g: Geometry, m: Mem, m': Mem, d: Disk, d': Disk, i: nat,
                   a: Abs, id: nat, e: DirEntry, v: Option<Option<Page>>)
    requires Holds(g, m, d, a) && DirMoves(g, m, m', id, e)
    requires Untouchable(g, m, i) && SameExcept(d, d', i)
    requires v.Some? <==> e.inUse
    requires v.Some? && v.value.Some? ==> CopyHolds(d', e, v.value.value, g.crc)
    ensures Holds(g, m', d', After(g, m', a, id, v))
  {
    hide EntryOf;
    var a' := After(g, m', a, id, v);
    forall other: nat
      ensures other in a' <==> InUse(g, m', other)
      ensures other in a' && a'[other].Some? ==> CopyHolds(d', EntryOf(g, m', other), a'[other].value, g.crc)
    {
      if other != id {
        assert EntryLags(EntryOf(g, m', other), EntryOf(g, m, other));
      }
    }
  }

  // ── Directory changes ──────────────────────────────────────────────────────

  /** Memory changes to m in block b: what the commit of that block will make durable is
      consistent with either bitmap, memory goes on agreeing with it, and the block's inactive
      page may be written. */
  ghost predicate DirChange(g: Geometry, s: Sys, m: Mem, b: nat) {
    && m.meta == s.mem.meta && m.active == s.mem.active
    && OneBlockPending(s.(mem := m), b)
    && Consistent(g, Published(s.(mem := m), b))
    && Consistent(g, Published(s.(mem := m), b).(meta := s.mem.meta))
    && DirsLag(m.dirs, Landed(s.(mem := m), b))
    && Untouchable(g, s.dur, m.blocks[b].Inactive())
    && m.blocks[b].Inactive() < |s.disk.mapped|
  }

  lemma ChangeInRange(g: Geometry, s: Sys, m: Mem, b: nat)
    requires DirChange(g, s, m, b)
    ensures b < |m.blocks| == |m.dirs|
  {
  }

  lemma DirCommitHolds(g: Geometry, s: Sys, m: Mem, b: nat, id: nat, e: DirEntry, a: Abs, v: Option<Option<Page>>)
    requires Durable(g, s, a) && DirChange(g, s, m, b)
    requires DirMoves(g, s.dur, Published(s.(mem := m), b), id, e)
    requires v.Some? <==> e.inUse
    requires
      var i := m.blocks[b].Inactive();
      v.Some? && v.value.Some? ==>
        CopyHolds(Flush(Store(s.disk, i, DirBytes(g, m.dirs[b])), i), e, v.value.value, g.crc)
    ensures
      var i := m.blocks[b].Inactive();
      var next := Published(s.(mem := m), b);
      Holds(g, next, Flush(Store(s.disk, i, DirBytes(g, m.dirs[b])), i), After(g, next, a, id, v))
  {
    hide Consistent, Holds, Untouchable, CopyHolds, DirMoves, Encodes, CleanCore, DirBytes, SameExcept, Sound, Sized,
         After, Landed;
    var i := m.blocks[b].Inactive();
    UntouchableNonzero(g, s.dur, i);
    var d2 := Flush(Store(s.disk, i, DirBytes(g, m.dirs[b])), i);
    StoreAndFlush(s.disk, i, DirBytes(g, m.dirs[b]));
    HoldsMoved(g, s.dur, Published(s.(mem := m), b), s.disk, d2, i, a, id, e, v);
  }

  lemma UntouchableNonzero(g: Geometry, m: Mem, i: nat)
    requires Untouchable(g, m, i)
    ensures i != 0
  {
  }

  /** After the commit memory agrees with what is durable. */
  lemma LandedAgrees(g: Geometry, s: Sys, m: Mem, b: nat, s': Sys, a: Abs)
    requires Agrees(s) && DirChange(g, s, m, b) && Durable(g, s', a)
    requires s'.mem == m.(blocks := FlipBlock(m.blocks, b)) && s'.dur == Published(s.(mem := m), b)
    requires |s'.disk.mapped| == |s.disk.mapped|
    ensures Steady(g, s', a)
  {
    hide Durable, Consistent, Untouchable, DirsLag, Landed;
  }

  /** A directory change is committed: contents go from a to what is left of them after it. */
  lemma DirCommitReady(g: Geometry, s: Sys, m: Mem, b: nat, id: nat, e: DirEntry, a: Abs, v: Option<Option<Page>>)
    requires Ready(g, s, a) && DirChange(g, s, m, b)
    requires DirMoves(g, s.dur, Published(s.(mem := m), b), id, e)
    requires v.Some? <==> e.inUse
    requires
      var i := m.blocks[b].Inactive();
      v.Some? && v.value.Some? ==>
        CopyHolds(Flush(Store(s.disk, i, DirBytes(g, m.dirs[b])), i), e, v.value.value, g.crc)
    requires TraceOk(g, s.trace, a, a)
    ensures
      var (s', r) := CommitDir(g, s.(mem := m), b);
      var a' := After(g, s'.dur, a, id, v);
      && r.Ok? && Ready(g, s', a') && TraceOk(g, s'.trace, a, a')
      && s'.mem == m.(blocks := FlipBlock(m.blocks, b))
      && s'.dur == Published(s.(mem := m), b)
  {
    hide TraceOk, Untouchable, Holds, CopyHolds, DirMoves, Sound, Sized, Survives, DirBytes, Consistent, CommitDir, After,
         DirsLag, Landed;
    var next := Published(s.(mem := m), b);
    var a' := After(g, next, a, id, v);
    DirCommitHolds(g, s, m, b, id, e, a, v);
    TraceWidens(g, s.trace, a, a');
    CommitDirSafe(g, s.(mem := m), b, a, a', a, a');
    LandedAgrees(g, s, m, b, CommitDir(g, s.(mem := m), b).0, a');
  }

  // ── Writing one entry of an existing block ─────────────────────────────────

  lemma DurConsistent(g: Geometry, s: Sys, a: Abs)
    requires Steady(g, s, a)
    ensures Consistent(g, s.dur) && s.dur.meta.total <= |s.disk.mapped|
  {
    hide Consistent, Sound, Sized, DirsLag;
  }

  /** The blocks after landing, whichever bitmap: the durable directory with the entry written,
      less the entries dropped in the same block. */
  lemma LandConsistent(g: Geometry, s: Sys, b: nat, slot: nat, e: DirEntry, meta: Meta)
    requires s.mem.blocks == s.dur.blocks && DirsLag(s.mem.dirs, s.dur.dirs)
    requires HasEntry(s.mem, b, slot) && HasEntry(s.dur, b, slot) && b < |s.mem.blocks|
    requires Consistent(g, Rewritten(s.dur.(meta := meta), b, slot, e))
    ensures Consistent(g, Published(s.(mem := Rewritten(s.mem, b, slot, e)), b).(meta := meta))
  {
    hide Consistent, DirsLag;
    var m := Rewritten(s.mem, b, slot, e);
    var f := Rewritten(s.dur.(meta := meta), b, slot, e);
    SetEntryLags(s.mem.dirs, s.dur.dirs, b, slot, e);
    var n := f.(dirs := Landed(s.(mem := m), b));
    LagConsistent(g, n, f);
    FlipConsistent(g, n, b);
    ActiveAside(g, n.(blocks := FlipBlock(n.blocks, b)), s.mem.active);
  }

  lemma ActiveAside(g: Geometry, m: Mem, active: Selector)
    requires Consistent(g, m)
    ensures Consistent(g, m.(active := active))
  {
    hide Exact, MetaFits, Doubled, DirShape;
    SameDirectory(m, m.(active := active));
  }

  lemma SteadyLag(g: Geometry, s: Sys, a: Abs)
    requires Steady(g, s, a)
    ensures DirsLag(s.mem.dirs, s.dur.dirs) && s.mem.blocks == s.dur.blocks && s.mem.active == s.dur.active
    ensures |s.mem.dirs| == |s.mem.blocks| == |s.dur.blocks| == |s.dur.dirs|
    ensures Consistent(g, Held(s)) && Consistent(g, s.dur) && Consistent(g, s.mem)
  {
    hide Durable, DirsLag, Exact, MetaFits, Doubled, DirShape, Owned;
    SteadyMeta(g, s, a);
    DurConsistent(g, s, a);
    LagLength(s.mem.dirs, s.dur.dirs);
  }

  lemma LagLength(dirs: seq<DirPage>, durable: seq<DirPage>)
    requires DirsLag(dirs, durable)
    ensures |dirs| == |durable|
  {
  }

  lemma LagHasEntry(m: Mem, f: Mem, b: nat, slot: nat)
    requires DirsLag(m.dirs, f.dirs) && HasEntry(m, b, slot)
    ensures HasEntry(f, b, slot) && EntryLags(m.dirs[b].entries[slot], f.dirs[b].entries[slot])
  {
    assert PageLags(m.dirs[b], f.dirs[b]);
  }

  lemma SlotBound(g: Geometry, m: Mem, b: nat, slot: nat)
    requires Consistent(g, m) && HasEntry(m, b, slot)
    ensures slot < Epp(g) && b < |m.blocks| && m.dirs[b].entries[slot].activeSlot <= 1
  {
    hide Exact, MetaFits, Owned, Doubled;
    assert DirShape(g, m.dirs[b]);
  }

  lemma LandedEntry(g: Geometry, s: Sys, b: nat, slot: nat, e: DirEntry)
    requires HasEntry(s.mem, b, slot) && b < |s.dur.dirs| && b < |s.mem.blocks| && slot < Epp(g)
    ensures EntryOf(g, Published(s.(mem := Rewritten(s.mem, b, slot, e)), b), IdAt(g, b, slot)) == e
  {
    hide Epp;
    IdOfSlot(g, b, slot);
  }

  /** Replacing one entry of an existing block is a directory change. */
  lemma SetEntryChange(g: Geometry, s: Sys, a: Abs, b: nat, slot: nat, e: DirEntry)
    requires Steady(g, s, a) && HasEntry(s.mem, b, slot) && HasEntry(s.dur, b, slot)
    requires Consistent(g, Rewritten(s.dur, b, slot, e))
    requires Consistent(g, Rewritten(Held(s), b, slot, e))
    ensures slot < Epp(g) && b < |s.mem.blocks| == |s.mem.dirs|
    ensures
      var m := Rewritten(s.mem, b, slot, e);
      && DirChange(g, s, m, b)
      && DirMoves(g, s.dur, Published(s.(mem := m), b), IdAt(g, b, slot), e)
  {
    hide Steady, Consistent, Untouchable, DirsLag, Epp, EntryOf, OneEntryDiffers;
    var m := Rewritten(s.mem, b, slot, e);
    SteadyLag(g, s, a);
    SteadyParts(g, s, a);
    SlotBound(g, s.mem, b, slot);
    LandConsistent(g, s, b, slot, e, s.dur.meta);
    LandConsistent(g, s, b, slot, e, s.mem.meta);
    SetEntryLags(s.mem.dirs, s.dur.dirs, b, slot, e);
    OwnedOf(g, s.dur);
    InactiveDirUntouchable(g, s.dur, b);
    BlockPageOwned(s.dur, b);
    SetDiffers(g, s.dur, b, slot, e);
    LandedEntry(g, s, b, slot, e);
    LagMoves(g, s.dur, Rewritten(s.dur, b, slot, e), Published(s.(mem := m), b), IdAt(g, b, slot), e);
  }

  /** Appending a block is a directory change. */
  lemma AppendChange(g: Geometry, s: Sys, ids: seq<nat>, a: Abs)
    requires Steady(g, s, a) && s.dur.meta == s.mem.meta && |s.mem.blocks| < MaxDirBlocks(g.pageSize)
    requires |ids| == 4 && (forall x :: x in ids ==> FreshPage(s.dur, x))
    requires ids[0] != ids[1] && ids[0] != ids[2] && ids[0] != ids[3] && ids[1] != ids[2] && ids[1] != ids[3] && ids[2] != ids[3]
    requires EntryFits(NewEntry(g, s.disk, ids[2], ids[3]))
    ensures
      var e := NewEntry(g, s.disk, ids[2], ids[3]);
      var m := AppendBlock(g, s.mem, ids[0], ids[1], e);
      var b := |s.mem.blocks|;
      && b == |s.mem.dirs| && b < |m.dirs| && b < |m.blocks|
      && DirChange(g, s, m, b)
      && DirMoves(g, s.dur, Published(s.(mem := m), b), IdAt(g, b, 0), e)
  {
    hide Steady, Consistent, Untouchable, DirsLag, Epp, EntryOf, OneEntryDiffers, FreshPage, AppendBlock;
    var e := NewEntry(g, s.disk, ids[2], ids[3]);
    var b := |s.mem.blocks|;
    var m := AppendBlock(g, s.mem, ids[0], ids[1], e);
    var f := AppendBlock(g, s.dur, ids[0], ids[1], e);
    assert ids[0] in ids && ids[1] in ids && ids[2] in ids && ids[3] in ids;
    SteadyLag(g, s, a);
    SteadyParts(g, s, a);
    AppendConsistent(g, s.dur, ids[0], ids[1], e);
    AppendShapes(g, s, ids[0], ids[1], e);
    FlipConsistent(g, f, b);
    FreshUntouchable(g, s.dur, ids[1]);
    AppendDiffers(g, s.dur, ids[0], ids[1], e);
    LagsItself(f.dirs);
    EntryByDirs(g, f, Published(s.(mem := m), b), IdAt(g, b, 0));
    EntryOfDiffers(g, s.dur, f, IdAt(g, b, 0), e);
    LagMoves(g, s.dur, f, Published(s.(mem := m), b), IdAt(g, b, 0), e);
  }

  lemma EntryOfDiffers(g: Geometry, m: Mem, m': Mem, id: nat, e: DirEntry)
    requires OneEntryDiffers(g, m, m', id, e)
    ensures EntryOf(g, m', id) == e
  {
  }

  lemma EntryByDirs(g: Geometry, m: Mem, m': Mem, id: nat)
    requires m.dirs == m'.dirs
    ensures EntryOf(g, m, id) == EntryOf(g, m', id)
  {
  }

  lemma FreshUntouchable(g: Geometry, m: Mem, x: nat)
    requires FreshPage(m, x)
    ensures Untouchable(g, m, x) && x < m.meta.total
  {
    hide Untouchable, Referenced;
    UnreferencedUntouchable(g, m, x);
  }

  /** The appended block on both sides of the lag. */
  lemma AppendShapes(g: Geometry, s: Sys, p: nat, q: nat, e: DirEntry)
    requires s.mem.active == s.dur.active && s.mem.blocks == s.dur.blocks && DirsLag(s.mem.dirs, s.dur.dirs)
    requires |s.mem.blocks| == |s.mem.dirs|
    ensures
      var m := AppendBlock(g, s.mem, p, q, e);
      var f := AppendBlock(g, s.dur, p, q, e);
      var b := |s.mem.blocks|;
      && m.meta == s.mem.meta && m.active == s.mem.active
      && |m.dirs| == |m.blocks| == |f.blocks| == b + 1 && m.blocks[b].Inactive() == q
      && OneBlockPending(s.(mem := m), b)
      && f.meta == s.dur.meta && f.blocks == m.blocks
      && Landed(s.(mem := m), b) == f.dirs && DirsLag(m.dirs, f.dirs)
      && Published(s.(mem := m), b) == f.(blocks := FlipBlock(f.blocks, b))
  {
    LagsItself(AppendBlock(g, s.mem, p, q, e).dirs);
  }
}
