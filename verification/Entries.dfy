/** What each call does to the directory in memory, whatever state it starts from: the entry it
    is about changes and every other one stays. */
module Entries {
  import opened Bytes
  import opened Results
  import opened Metadata
  import opened Layout
  import opened Disks
  import opened Recovery
  import opened PagerSpec
  import opened DirSafety
  import opened DirChanges

  /** Every id but this one has the entry it had. */
  ghost predicate OthersKept(g: Geometry, m: Mem, m': Mem, id: nat) {
    forall other: nat :: other != id ==> EntryOf(g, m', other) == EntryOf(g, m, other)
  }

  lemma CommitFrame(g: Geometry, s: Sys)
    ensures
      var (s', r) := Commit(g, s);
      && s'.mem == s.mem.(meta := NextGeneration(s.mem.meta),
                          active := if s.mapped then s.mem.active.Other() else s.mem.active)
      && s'.dur == (if s.mapped then s'.mem.(dirs := s.dur.dirs) else s.dur)
      && (r == if s.mapped then Ok(()) else Err(Unavailable)) && s'.mapped == s.mapped
  {
    hide Store, Flush, MetaBytes, Page0Bytes;
  }

  lemma EntryInRange(m: Mem, b: nat, slot: nat)
    requires HasEntry(m, b, slot)
    ensures b < |m.dirs| && slot < |m.dirs[b].entries|
  {
  }

  lemma FreeEntryUnused(m: Mem, b: nat)
    requires b < |m.dirs| && FirstFreeEntry(m.dirs[b].entries) < |m.dirs[b].entries|
    ensures
      var slot := FirstFreeEntry(m.dirs[b].entries);
      HasEntry(m, b, slot) && !m.dirs[b].entries[slot].inUse
  {
  }

  lemma InUseHasEntry(g: Geometry, m: Mem, id: nat)
    requires InUse(g, m, id)
    ensures
      var b, slot := BlockOf(g, id), SlotOf(g, id);
      && b < |m.dirs| && slot < |m.dirs[b].entries| && HasEntry(m, b, slot)
      && m.dirs[b].entries[slot].inUse && EntryOf(g, m, id) == m.dirs[b].entries[slot]
  {
    hide BlockOf, SlotOf;
  }

  /** The directory commit after one entry was written leaves the other entries alone. */
  lemma WrittenEntries(g: Geometry, s: Sys, m: Mem, b: nat, slot: nat, e: DirEntry, s': Sys)
    requires m.dirs == s.mem.dirs && HasEntry(m, b, slot) && slot < Epp(g)
    requires s'.mem.dirs == Rewritten(m, b, slot, e).dirs
    ensures EntryOf(g, s'.mem, IdAt(g, b, slot)) == e
    ensures OthersKept(g, s.mem, s'.mem, IdAt(g, b, slot))
  {
    hide Epp, EntryOf, Rewritten, IdAt;
    SetDiffers(g, m, b, slot, e);
    forall other: nat
      ensures EntryOf(g, s'.mem, other) == EntryOf(g, Rewritten(m, b, slot, e), other)
      ensures EntryOf(g, s.mem, other) == EntryOf(g, m, other)
    {
      EntryByDirs(g, s'.mem, Rewritten(m, b, slot, e), other);
      EntryByDirs(g, s.mem, m, other);
    }
  }

  // ── Allocating ─────────────────────────────────────────────────────────────

  lemma AllocInBlockSteps(g: Geometry, s: Sys, env: Env, b: nat)
    requires |s.mem.blocks| == |s.mem.dirs| && b < |s.mem.dirs|
    requires FirstFreeEntry(s.mem.dirs[b].entries) < |s.mem.dirs[b].entries|
    ensures
      var slot := FirstFreeEntry(s.mem.dirs[b].entries);
      var (s1, ids, r) := AllocRaws(g, s, env, 2);
      var (s2, c) := Commit(g, s1);
      && s2.mem.blocks == s.mem.blocks && s2.mem.dirs == s.mem.dirs
      && (r.Err? ==> AllocInBlock(g, s, env, b) == (s1, Err(r.error)))
      && (r.Ok? && !s1.mapped ==> AllocInBlock(g, s, env, b) == (s2, Err(Unavailable)))
      && (r.Ok? && s1.mapped ==>
            var m := Rewritten(s2.mem, b, slot, NewEntry(g, s2.disk, ids[0], ids[1]));
            var s4 := CommitDir(g, s2.(mem := m), b).0;
            && AllocInBlock(g, s, env, b) == (s4, Ok(IdAt(g, b, slot))) && s4.mapped
            && s4.mem == m.(blocks := FlipBlock(m.blocks, b)))
  {
    hide AllocRaws, Commit, CommitDir, Rewritten, NewEntry, IdAt, FirstFreeEntry;
    RawsKeepDirs(g, s, env, 2);
    var (s1, ids, r) := AllocRaws(g, s, env, 2);
    CommitFrame(g, s1);
    FreeEntryUnused(s.mem, b);
    if r.Ok? && s1.mapped {
      var s2 := Commit(g, s1).0;
      var e := NewEntry(g, s2.disk, ids[0], ids[1]);
      CommitDirResult(g, s2.(mem := Rewritten(s2.mem, b, FirstFreeEntry(s.mem.dirs[b].entries), e)), b);
    }
  }

  lemma AppendFrame(g: Geometry, m: Mem, a: nat, b: nat, e: DirEntry)
    ensures var m' := AppendBlock(g, m, a, b, e);
      && |m'.blocks| == |m.blocks| + 1 && |m'.dirs| == |m.dirs| + 1 && m'.meta == m.meta && m'.active == m.active
  {
  }

  lemma AllocNewBlockSteps(g: Geometry, s: Sys, env: Env)
    requires |s.mem.blocks| == |s.mem.dirs|
    ensures
      var b := |s.mem.blocks|;
      var (s1, ids, r) := AllocRaws(g, s, env, 4);
      var (s2, c) := Commit(g, s1);
      && s2.mem.blocks == s.mem.blocks && s2.mem.dirs == s.mem.dirs
      && (r.Err? ==> AllocNewBlock(g, s, env) == (s1, Err(r.error)))
      && (r.Ok? && !s1.mapped ==> AllocNewBlock(g, s, env) == (s2, Err(Unavailable)))
      && (r.Ok? && s1.mapped ==>
            var m := AppendBlock(g, s2.mem, ids[0], ids[1], NewEntry(g, s2.disk, ids[2], ids[3]));
            && |m.blocks| == |m.dirs| == b + 1
            && var s4 := CommitDir(g, s2.(mem := m), b).0;
               && AllocNewBlock(g, s, env) == (s4, Ok(IdAt(g, b, 0))) && s4.mapped
               && s4.mem == m.(blocks := FlipBlock(m.blocks, b)))
  {
    hide AllocRaws, Commit, CommitDir, NewEntry, IdAt, AppendBlock;
    RawsKeepDirs(g, s, env, 4);
    var (s1, ids, r) := AllocRaws(g, s, env, 4);
    CommitFrame(g, s1);
    if r.Ok? && s1.mapped {
      var s2 := Commit(g, s1).0;
      var e := NewEntry(g, s2.disk, ids[2], ids[3]);
      AppendFrame(g, s2.mem, ids[0], ids[1], e);
      CommitDirResult(g, s2.(mem := AppendBlock(g, s2.mem, ids[0], ids[1], e)), |s.mem.blocks|);
    }
  }

  lemma AllocProtectedCases(g: Geometry, s: Sys, env: Env)
    requires |s.mem.blocks| == |s.mem.dirs|
    ensures
      var b := FirstOpenBlock(s.mem.dirs);
      AllocProtected(g, s, env) ==
      if b < |s.mem.dirs| then AllocInBlock(g, s, env, b)
      else if |s.mem.blocks| >= MaxDirBlocks(g.pageSize) then (s, Err(DirectoryFull))
      else AllocNewBlock(g, s, env)
  {
    hide AllocInBlock, AllocNewBlock, FirstOpenBlock;
  }

  /** The pages `alloc_protected` asks the allocator for in this state. */
  function Needed(g: Geometry, m: Mem): nat {
    if FirstOpenBlock(m.dirs) < |m.dirs| then 2
    else if |m.blocks| >= MaxDirBlocks(g.pageSize) then 0
    else 4
  }

  /** The slot `alloc_protected` fills when it succeeds. */
  function NextSlot(m: Mem): nat {
    var b := FirstOpenBlock(m.dirs);
    if b < |m.dirs| then FirstFreeEntry(m.dirs[b].entries) else 0
  }

  lemma InBlockEntries(g: Geometry, s: Sys, env: Env, b: nat)
    requires |s.mem.blocks| == |s.mem.dirs| && b < |s.mem.dirs|
    requires FirstFreeEntry(s.mem.dirs[b].entries) < |s.mem.dirs[b].entries|
    requires FirstFreeEntry(s.mem.dirs[b].entries) < Epp(g)
    ensures
      var (s', r) := AllocInBlock(g, s, env, b);
      && (r.Err? ==> s'.mem.dirs == s.mem.dirs)
      && (r.Ok? ==>
            && r.value == IdAt(g, b, FirstFreeEntry(s.mem.dirs[b].entries)) && s'.mapped
            && InUse(g, s'.mem, r.value) && OthersKept(g, s.mem, s'.mem, r.value))
  {
    hide AllocInBlock, AllocRaws, Commit, CommitDir, Rewritten, NewEntry, IdAt, FirstFreeEntry, Epp, EntryOf, OthersKept;
    AllocInBlockSteps(g, s, env, b);
    RawsKeepDirs(g, s, env, 2);
    FreeEntryUnused(s.mem, b);
    var (s1, ids, r) := AllocRaws(g, s, env, 2);
    if r.Ok? && s1.mapped {
      var s2 := Commit(g, s1).0;
      var e := NewEntry(g, s2.disk, ids[0], ids[1]);
      WrittenEntries(g, s, s2.mem, b, FirstFreeEntry(s.mem.dirs[b].entries), e, AllocInBlock(g, s, env, b).0);
      NewEntryInUse(g, s2.disk, ids[0], ids[1]);
    }
  }

  lemma NewEntryInUse(g: Geometry, d: Disk, pa: nat, pb: nat)
    ensures
      var e := NewEntry(g, d, pa, pb);
      e.inUse && e.pageA == pa && e.pageB == pb && ActivePhys(e) == pa && e.activeSlot == e.generation % 2
  {
  }

  lemma NewBlockEntries(g: Geometry, s: Sys, env: Env)
    requires |s.mem.blocks| == |s.mem.dirs|
    ensures
      var (s', r) := AllocNewBlock(g, s, env);
      && (r.Err? ==> s'.mem.dirs == s.mem.dirs)
      && (r.Ok? ==>
            && r.value == IdAt(g, |s.mem.dirs|, 0) && s'.mapped
            && InUse(g, s'.mem, r.value) && OthersKept(g, s.mem, s'.mem, r.value))
  {
    hide AllocNewBlock, AllocRaws, Commit, CommitDir, AppendBlock, NewEntry, IdAt, Epp, EntryOf;
    AllocNewBlockSteps(g, s, env);
    RawsKeepDirs(g, s, env, 4);
    var (s1, ids, r) := AllocRaws(g, s, env, 4);
    if r.Ok? && s1.mapped {
      var s2 := Commit(g, s1).0;
      var e := NewEntry(g, s2.disk, ids[2], ids[3]);
      NewEntryInUse(g, s2.disk, ids[2], ids[3]);
      AppendDiffers(g, s2.mem, ids[0], ids[1], e);
      var s4 := AllocNewBlock(g, s, env).0;
      forall other: nat
        ensures EntryOf(g, s4.mem, other) == EntryOf(g, AppendBlock(g, s2.mem, ids[0], ids[1], e), other)
        ensures EntryOf(g, s.mem, other) == EntryOf(g, s2.mem, other)
      {
        EntryByDirs(g, s4.mem, AppendBlock(g, s2.mem, ids[0], ids[1], e), other);
        EntryByDirs(g, s.mem, s2.mem, other);
      }
    }
  }

  /** `alloc_protected` fills the next slot or leaves the directory as it is. */
  lemma AllocProtectedEntries(g: Geometry, s: Sys, env: Env)
    requires |s.mem.blocks| == |s.mem.dirs| && NextSlot(s.mem) < Epp(g)
    ensures
      var (s', r) := AllocProtected(g, s, env);
      && (r.Err? ==> s'.mem.dirs == s.mem.dirs)
      && (r.Ok? ==>
            && r.value == IdAt(g, FirstOpenBlock(s.mem.dirs), NextSlot(s.mem)) && s'.mapped
            && InUse(g, s'.mem, r.value) && OthersKept(g, s.mem, s'.mem, r.value))
  {
    hide AllocProtected, AllocInBlock, AllocNewBlock, FirstFreeEntry, IdAt, Epp, EntryOf, OthersKept;
    AllocProtectedCases(g, s, env);
    var b := FirstOpenBlock(s.mem.dirs);
    if b < |s.mem.dirs| {
      InBlockEntries(g, s, env, b);
    } else if |s.mem.blocks| < MaxDirBlocks(g.pageSize) {
      NewBlockEntries(g, s, env);
    }
  }

  // ── Freeing and writing ────────────────────────────────────────────────────

  /** `free_protected` of an id in use, statement by statement. */
  lemma FreeProtectedSteps(g: Geometry, s: Sys, id: nat)
    requires |s.mem.blocks| == |s.mem.dirs| && InUse(g, s.mem, id)
    ensures
      var b, slot := BlockOf(g, id), SlotOf(g, id);
      var e := s.mem.dirs[b].entries[slot];
      var m := Rewritten(s.mem, b, slot, e.(inUse := false));
      && (!s.mapped ==> FreeProtected(g, s, id) == (s.(mem := m), Err(Unavailable)))
      && (s.mapped ==>
            var s1 := CommitDir(g, s.(mem := m), b).0;
            && s1.mem == m.(blocks := FlipBlock(m.blocks, b)) && s1.mapped
            && FreeProtected(g, s, id) == Commit(g, WithMeta(s1, Unmark(Unmark(s1.mem.meta, e.pageA), e.pageB))))
  {
    hide Commit, Unmark, WithMeta, Rewritten, BlockOf, SlotOf, Publish, Page0Bytes, DirBytes;
    InUseHasEntry(g, s.mem, id);
    var b, slot := BlockOf(g, id), SlotOf(g, id);
    var e := s.mem.dirs[b].entries[slot];
    var m := Rewritten(s.mem, b, slot, e.(inUse := false));
    if s.mapped {
      CommitDirResult(g, s.(mem := m), b);
    }
  }

  lemma FreeNotInUse(g: Geometry, s: Sys, id: nat)
    requires |s.mem.blocks| == |s.mem.dirs| && !InUse(g, s.mem, id)
    ensures FreeProtected(g, s, id).0 == s && FreeProtected(g, s, id).1.Err?
    ensures FreeProtected(g, s, id).1 != Err(Unavailable)
  {
    hide Commit, CommitDir;
  }

  /** `free_protected` of an id in use drops its entry from memory, mapped or not. */
  lemma FreedEntries(g: Geometry, s: Sys, id: nat)
    requires |s.mem.blocks| == |s.mem.dirs| && InUse(g, s.mem, id)
    ensures
      var s' := FreeProtected(g, s, id).0;
      !InUse(g, s'.mem, id) && OthersKept(g, s.mem, s'.mem, id) && s'.mapped == s.mapped
  {
    hide FreeProtected, Commit, CommitDir, Unmark, Rewritten, Epp, EntryOf, OthersKept, BlockOf, SlotOf;
    InUseHasEntry(g, s.mem, id);
    FreeProtectedSteps(g, s, id);
    SlotOfId(g, id);
    var b, slot := BlockOf(g, id), SlotOf(g, id);
    var e := s.mem.dirs[b].entries[slot];
    var m := Rewritten(s.mem, b, slot, e.(inUse := false));
    if s.mapped {
      var s1 := CommitDir(g, s.(mem := m), b).0;
      CommitFrame(g, WithMeta(s1, Unmark(Unmark(s1.mem.meta, e.pageA), e.pageB)));
    }
    WrittenEntries(g, s, s.mem, b, slot, e.(inUse := false), FreeProtected(g, s, id).0);
  }

  /** `ProtectedPageWriter::commit`, statement by statement. */
  lemma CommitWriteSteps(g: Geometry, s: Sys, id: nat)
    requires |s.mem.blocks| == |s.mem.dirs| && InUse(g, s.mem, id) && s.mapped
    ensures
      var b, slot := BlockOf(g, id), SlotOf(g, id);
      var e := s.mem.dirs[b].entries[slot];
      var s1 := Step(s, Flush(s.disk, InactivePhys(e)));
      var m := Rewritten(s.mem, b, slot, Flipped(e, g.crc(MappedPage(s1.disk, InactivePhys(e)))));
      var s' := CommitDir(g, s1.(mem := m), b).0;
      && CommitWrite(g, s, id).0 == s' && CommitWrite(g, s, id).1.Ok? && s'.mem == m.(blocks := FlipBlock(m.blocks, b)) && s'.mapped
  {
    hide Rewritten, BlockOf, SlotOf, Publish, Page0Bytes, DirBytes, Flush, CommitDir, MappedPage, InactivePhys, Flipped;
    InUseHasEntry(g, s.mem, id);
    var b, slot := BlockOf(g, id), SlotOf(g, id);
    var e := s.mem.dirs[b].entries[slot];
    assert EntryAt(s.mem, b, slot) == e;
    var s1 := Step(s, Flush(s.disk, InactivePhys(e)));
    var m := Rewritten(s.mem, b, slot, Flipped(e, g.crc(MappedPage(s1.disk, InactivePhys(e)))));
    CommitDirResult(g, s1.(mem := m), b);
  }

  /** Committing a protected write turns over its own entry only. */
  lemma CommitWriteEntries(g: Geometry, s: Sys, id: nat)
    requires |s.mem.blocks| == |s.mem.dirs| && InUse(g, s.mem, id) && s.mapped
    ensures
      var s' := CommitWrite(g, s, id).0;
      && s'.mapped && OthersKept(g, s.mem, s'.mem, id)
      && exists c :: EntryOf(g, s'.mem, id) == Flipped(EntryOf(g, s.mem, id), c)
  {
    hide CommitWrite, CommitDir, Rewritten, Epp, EntryOf, OthersKept, BlockOf, SlotOf, Flush, Flipped, InactivePhys;
    InUseHasEntry(g, s.mem, id);
    CommitWriteSteps(g, s, id);
    SlotOfId(g, id);
    var b, slot := BlockOf(g, id), SlotOf(g, id);
    var e := s.mem.dirs[b].entries[slot];
    var s1 := Step(s, Flush(s.disk, InactivePhys(e)));
    var e' := Flipped(e, g.crc(MappedPage(s1.disk, InactivePhys(e))));
    WrittenEntries(g, s, s.mem, b, slot, e', CommitWrite(g, s, id).0);
  }

  lemma StageFrame(g: Geometry, s: Sys, id: nat, page: Page)
    ensures
      var (s', r) := StageWrite(g, s, id, page);
      s'.mem == s.mem && s'.mapped == s.mapped && s'.dur == s.dur && (r.Ok? <==> InUse(g, s.mem, id) && s.mapped)
  {
  }

  /** A whole protected write: the same entry's copies are swapped. */
  lemma WrittenPageEntries(g: Geometry, s: Sys, id: nat, page: Page)
    requires |s.mem.blocks| == |s.mem.dirs| && InUse(g, s.mem, id) && s.mapped
    ensures
      var (s', r) := WriteProtected(g, s, id, page);
      && r.Ok? && s'.mapped && OthersKept(g, s.mem, s'.mem, id)
      && exists c :: EntryOf(g, s'.mem, id) == Flipped(EntryOf(g, s.mem, id), c)
  {
    hide StageWrite, CommitWrite, EntryOf, OthersKept, Flipped;
    StageFrame(g, s, id, page);
    var s1 := StageWrite(g, s, id, page).0;
    CommitWriteEntries(g, s1, id);
    CommitWriteSteps(g, s1, id);
  }
}
