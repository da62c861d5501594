/** The bytes of regular pages: no call but a write to it changes a page that is in use. */
module Contents {
  import opened Bytes
  import opened Results
  import opened Metadata
  import opened Disks
  import opened Recovery
  import opened PagerSpec
  import opened Ownership
  import opened Safety
  import opened RawAllocation
  import opened Bulk
  import opened Runs
  import opened Accounting
  import opened Frames

  lemma SteadyPlaced(g: Geometry, s: Sys, a: Abs)
    requires Steady(g, s, a) && |s.mem.blocks| == |s.mem.dirs|
    ensures Placed(g, s) && s.mem.meta.total <= |s.disk.mapped|
  {
    hide Steady, Consistent, Sized;
    SteadyMeta(g, s, a);
    SteadyParts(g, s, a);
  }

  /** No page behind the directory is regular. */
  lemma RegularApart(g: Geometry, m: Mem, p: nat)
    requires Consistent(g, m) && p in Regular(m)
    ensures FIRST_DATA_PAGE <= p && p in AllocatedSet(m.meta)
    ensures forall b :: 0 <= b < |m.blocks| ==> m.blocks[b].Inactive() != p
    ensures forall id: nat :: InUse(g, m, id) ==> InactivePhys(EntryOf(g, m, id)) != p
  {
    hide AllocatedSet, Referenced, EntryOf, InactivePhys;
    forall b | 0 <= b < |m.blocks|
      ensures m.blocks[b].Inactive() != p
    {
      BlockApart(m, b);
    }
    forall id: nat | InUse(g, m, id)
      ensures InactivePhys(EntryOf(g, m, id)) != p
    {
      EntryApart(g, m, id);
    }
  }

  lemma BlockApart(m: Mem, b: nat)
    requires b < |m.blocks|
    ensures m.blocks[b].Inactive() in Referenced(m)
  {
    hide BlockPages, BackingPages;
    BlockReferenced(m, b);
    assert m.blocks[b].Inactive() in RefBag(m.blocks[b]);
  }

  lemma EntryApart(g: Geometry, m: Mem, id: nat)
    requires InUse(g, m, id)
    ensures InactivePhys(EntryOf(g, m, id)) in Referenced(m)
  {
    hide BlockPages, BackingPages, BlockOf, SlotOf;
    var e := EntryOf(g, m, id);
    EntryReferenced(m, BlockOf(g, id), SlotOf(g, id));
    assert InactivePhys(e) in EntryBag(e);
  }

  predicate WritesTo(op: Op, p: nat) {
    op.OpWriteRegular? && op.id == p
  }

  lemma NotWritten(g: Geometry, s: Sys, op: Op, ok: bool, p: nat)
    requires Consistent(g, s.mem) && p in Regular(s.mem) && !WritesTo(op, p)
    requires ok && (op.OpStage? || op.OpWriteProtected?) ==> InUse(g, s.mem, op.id)
    ensures p !in Written(g, s, op, ok)
  {
    hide Consistent, Regular, EntryOf, BlockOf, FirstOpenBlock, ActivePhys, InactivePhys;
    RegularApart(g, s.mem, p);
  }

  lemma SuccessInUse(g: Geometry, s: Sys, op: Op)
    requires |s.mem.blocks| == |s.mem.dirs|
    ensures
      var r := Do(g, Begin(s), op).1;
      r.Succeeded() && (op.OpStage? || op.OpWriteProtected?) ==> InUse(g, s.mem, op.id)
  {
    hide Alloc, AllocBulk, Free, FreeBulk, AllocProtected, FreeProtected, CommitWrite, EntryOf;
  }

  /** Every call, whatever it answers, leaves the bytes of a regular page alone unless it is a
      write to that page. */
  lemma RegularKept(g: Geometry, s: Sys, op: Op, a: Abs, p: nat)
    requires Steady(g, s, a) && |s.mem.blocks| == |s.mem.dirs|
    requires p in Regular(s.mem) && !WritesTo(op, p)
    ensures SameAt(s.disk, Do(g, Begin(s), op).0.disk, p)
  {
    hide Steady, Do, Consistent, Placed, Written, SameAt, InUse, AllocatedSet;
    SteadyPlaced(g, s, a);
    SteadyMeta(g, s, a);
    CallFrame(g, s, op);
    SuccessInUse(g, s, op);
    NotWritten(g, s, op, Do(g, Begin(s), op).1.Succeeded(), p);
    RegularApart(g, s.mem, p);
  }

  /** A write stores its page. */
  lemma WriteStores(g: Geometry, s: Sys, p: nat, page: Page, a: Abs)
    requires Steady(g, s, a) && |s.mem.blocks| == |s.mem.dirs|
    ensures
      var (s', r) := WriteRegular(Begin(s), p, page);
      r.Ok? ==> MappedPage(s'.disk, p) == page
  {
    hide Steady;
    SteadyParts(g, s, a);
  }

  // ── Runs ───────────────────────────────────────────────────────────────────

  /** The page was in the caller's hands throughout, and was not written to again. */
  ghost predicate HeldFrom(es: seq<Event>, i: nat, j: nat, p: nat)
    requires i < j <= |es|
  {
    && (forall k :: i < k <= j ==> p in LivePages(es[..k]))
    && forall k :: i < k < j ==> es[k].Call? && !WritesTo(es[k].op, p)
  }

  lemma PrefixRun(g: Geometry, ss: seq<Sys>, es: seq<Event>, k: nat)
    requires IsRun(g, ss, es) && NothingHalfway(ss, es) && k <= |es|
    ensures |ss| == |es| + 1 && IsRun(g, ss[..k + 1], es[..k]) && NothingHalfway(ss[..k + 1], es[..k])
  {
    hide Next, Created;
  }

  lemma HeldIsRegular(g: Geometry, ss: seq<Sys>, es: seq<Event>, k: nat, p: nat) returns (a: Abs)
    requires IsRun(g, ss, es) && NothingHalfway(ss, es) && k <= |es| && p in LivePages(es[..k])
    ensures |ss| == |es| + 1 && p in Regular(ss[k].mem) && Steady(g, ss[k], a) && |ss[k].mem.blocks| == |ss[k].mem.dirs|
  {
    hide IsRun, NothingHalfway, LivePages, Regular, Steady, Shows;
    PrefixRun(g, ss, es, k);
    LiveIsRegular(g, ss[..k + 1], es[..k]);
    assert ss[..k + 1][k] == ss[k];
    var views := RunRefines(g, ss[..k + 1], es[..k]);
    ShowsReady(g, ss[k], views[k]);
    a := views[k].pages;
  }

  lemma CallAt(g: Geometry, ss: seq<Sys>, es: seq<Event>, k: nat)
    requires IsRun(g, ss, es) && k < |es| && es[k].Call?
    ensures |ss| == |es| + 1 && |ss[k].mem.blocks| == |ss[k].mem.dirs|
    ensures (ss[k + 1], es[k].reply) == Do(g, Begin(ss[k]), es[k].op)
  {
    hide Do, Capacity, OwnPages, EntryOf;
    assert Next(g, ss[k], es[k], ss[k + 1]);
  }

  lemma SteadyAt(g: Geometry, ss: seq<Sys>, es: seq<Event>, k: nat) returns (a: Abs)
    requires IsRun(g, ss, es) && k <= |es|
    ensures |ss| == |es| + 1 && Steady(g, ss[k], a)
  {
    hide IsRun, Steady, Shows;
    RunLength(g, ss, es);
    var views := RunRefines(g, ss, es);
    ShowsReady(g, ss[k], views[k]);
    a := views[k].pages;
  }

  lemma {:induction false} WrittenStays(g: Geometry, ss: seq<Sys>, es: seq<Event>, i: nat, j: nat, p: nat, page: Page)
    requires IsRun(g, ss, es) && NothingHalfway(ss, es) && i < j <= |es| && HeldFrom(es, i, j, p)
    requires es[i].Call? && es[i].op == OpWriteRegular(p, page) && es[i].reply.Succeeded()
    ensures |ss| == |es| + 1 && MappedPage(ss[j].disk, p) == page
    decreases j
  {
    hide IsRun, NothingHalfway, LivePages, Regular, Steady, Begin;
    RunLength(g, ss, es);
    if j == i + 1 {
      var a := SteadyAt(g, ss, es, i);
      CallAt(g, ss, es, i);
      WriteStores(g, ss[i], p, page, a);
    } else {
      WrittenStays(g, ss, es, i, j - 1, p, page);
      CallAt(g, ss, es, j - 1);
      var a := HeldIsRegular(g, ss, es, j - 1, p);
      hide Do;
      RegularKept(g, ss[j - 1], es[j - 1].op, a, p);
    }
  }

  /** What a caller last wrote to a page it holds is what it reads. */
  lemma RegularReadBack(g: Geometry, ss: seq<Sys>, es: seq<Event>, i: nat, j: nat, p: nat, page: Page)
    requires IsRun(g, ss, es) && NothingHalfway(ss, es) && i < j <= |es| && HeldFrom(es, i, j, p)
    requires es[i].Call? && es[i].op == OpWriteRegular(p, page) && es[i].reply.Succeeded()
    ensures |ss| == |es| + 1
    ensures ReadRegular(ss[j], p) == if ss[j].mapped then Ok(page) else Err(Unavailable)
  {
    hide IsRun, NothingHalfway, LivePages, Regular, Steady;
    WrittenStays(g, ss, es, i, j, p, page);
    var a := HeldIsRegular(g, ss, es, j, p);
    ReadsHeld(g, ss[j], p, a);
  }

  lemma ReadsHeld(g: Geometry, s: Sys, p: nat, a: Abs)
    requires Steady(g, s, a) && p in Regular(s.mem)
    ensures ReadRegular(s, p) == if s.mapped then Ok(MappedPage(s.disk, p)) else Err(Unavailable)
  {
    hide Steady, Referenced, BitAt;
    InAllocatedSet(s.mem.meta, p);
    SteadyMeta(g, s, a);
  }
}
