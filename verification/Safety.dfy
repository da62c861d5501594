/** What a disk must hold for a state to survive a crash, and the three ways the pager
    changes a disk without endangering it: touching a page nobody needs, resizing the
    file, and publishing a new state through page 0. */
module Safety {
  import opened Bytes
  import opened Results
  import opened Metadata
  import opened Layout
  import opened Disks
  import opened Recovery
  import opened PagerSpec
  import opened Ownership

  /** The protected pages as a user sees them: every in-use id, with its bytes once they
      have been committed. */
  type Abs = map<nat, Option<Page>>

  ghost predicate CopyHolds(d: Disk, e: DirEntry, v: Page, crc: seq<byte> -> u32) {
    && ActivePhys(e) < |d.durable|
    && ActivePhys(e) !in d.dirty
    && d.durable[ActivePhys(e)] == v
    && e.checksum == crc(v)
  }

  /** The ids in use are a's, and every committed page's bytes are durable in its active copy. */
  ghost predicate Holds(g: Geometry, m: Mem, d: Disk, a: Abs) {
    && (forall id: nat :: id in a <==> InUse(g, m, id))
    && forall id: nat :: id in a && a[id].Some? ==> CopyHolds(d, EntryOf(g, m, id), a[id].value, g.crc)
  }

  ghost predicate CleanCore(m: Mem, d: Disk) {
    && m.active.PageId() !in d.dirty
    && forall i :: 0 <= i < |m.blocks| ==> m.blocks[i].Active() !in d.dirty
  }

  /** If a crash finds page 0 equal to p0, `open` rebuilds m and the contents are a. */
  ghost predicate Survives(g: Geometry, m: Mem, d: Disk, p0: Page, a: Abs) {
    && Consistent(g, m)
    && |d.mapped| == |d.durable| && m.meta.total <= |d.durable|
    && Encodes(g, m, d.durable[0 := p0])
    && CleanCore(m, d)
    && Holds(g, m, d, a)
  }

  ghost predicate PointOk(g: Geometry, pt: Point, a: Abs, b: Abs) {
    && Sound(pt.disk) && |pt.disk.mapped| >= 4 && Sized(g, pt.disk)
    && Survives(g, pt.cur, pt.disk, pt.disk.durable[0], a)
    && Survives(g, pt.next, pt.disk, pt.disk.mapped[0], b)
  }

  /** Every disk of the trace recovers to a state whose contents are a or b. */
  ghost predicate TraceOk(g: Geometry, trace: seq<Point>, a: Abs, b: Abs) {
    forall i :: 0 <= i < |trace| ==>
      PointOk(g, trace[i], a, a) || PointOk(g, trace[i], a, b) || PointOk(g, trace[i], b, b)
  }

  lemma ConsistentFits(g: Geometry, m: Mem)
    requires Consistent(g, m)
    ensures Fits(g, m)
  {
    forall i | 0 <= i < |m.blocks|
      ensures RefFits(m.blocks[i])
    {
      BlockReferenced(m, i);
      assert m.blocks[i].pageA in RefBag(m.blocks[i]) && m.blocks[i].pageB in RefBag(m.blocks[i]);
      assert m.blocks[i].pageA in Referenced(m) && m.blocks[i].pageB in Referenced(m);
    }
  }

  /** Recovery: whatever a crash leaves, a surviving state is rebuilt exactly, and its
      committed pages still hold their bytes. */
  lemma CrashRecovers(g: Geometry, m: Mem, d: Disk, a: Abs, file: seq<Page>)
    requires CrashImage(g, d, file) && |file| >= 4
    requires Survives(g, m, d, file[0], a)
    ensures Open(g, file) == Ok(m)
    ensures Survives(g, m, Fresh(file), file[0], a)
  {
    hide DirBytes, MetaBytes, Page0, Exact, MetaFits, DirShape, Doubled, Owned, InUse, Open, Fits;
    OwnedOf(g, m);
    assert d.durable[0 := file[0]][0] == file[0];
    assert file[m.active.PageId()] == d.durable[m.active.PageId()];
    forall i | 0 <= i < |m.blocks|
      ensures m.blocks[i].Active() < |file| && file[m.blocks[i].Active()] == DirBytes(g, m.dirs[i])
    {
      BlockPageOwned(m, i);
    }
    assert Encodes(g, m, file);
    assert file[0 := file[0]] == file;
    ConsistentFits(g, m);
    OpenRebuilds(g, m, file);
    forall id: nat | id in a && a[id].Some?
      ensures CopyHolds(Fresh(file), EntryOf(g, m, id), a[id].value, g.crc)
    {
      ActiveCopyOwned(g, m, id);
    }
  }

  lemma OwnedOf(g: Geometry, m: Mem)
    requires Consistent(g, m)
    ensures Owned(m)
  {
  }

  lemma BlockPageOwned(m: Mem, i: nat)
    requires Owned(m) && i < |m.blocks|
    ensures FIRST_DATA_PAGE <= m.blocks[i].Active() < m.meta.total
    ensures FIRST_DATA_PAGE <= m.blocks[i].Inactive() < m.meta.total
  {
    BlockReferenced(m, i);
    assert m.blocks[i].Active() in RefBag(m.blocks[i]) && m.blocks[i].Inactive() in RefBag(m.blocks[i]);
    assert m.blocks[i].Active() in Referenced(m) && m.blocks[i].Inactive() in Referenced(m);
  }

  lemma EntryPagesOwned(m: Mem, b: nat, slot: nat)
    requires Owned(m) && EntryAt(m, b, slot).inUse
    ensures FIRST_DATA_PAGE <= EntryAt(m, b, slot).pageA < m.meta.total
    ensures FIRST_DATA_PAGE <= EntryAt(m, b, slot).pageB < m.meta.total
  {
    EntryReferenced(m, b, slot);
    var e := EntryAt(m, b, slot);
    assert e.pageA in EntryBag(e) && e.pageB in EntryBag(e);
    assert e.pageA in Referenced(m) && e.pageB in Referenced(m);
  }

  lemma ActiveCopyOwned(g: Geometry, m: Mem, id: nat)
    requires Owned(m) && InUse(g, m, id)
    ensures FIRST_DATA_PAGE <= ActivePhys(EntryOf(g, m, id)) < m.meta.total
  {
    EntryPagesOwned(m, BlockOf(g, id), SlotOf(g, id));
  }

  // ── Touching a page nobody needs ───────────────────────────────────────────

  /** Page i is none of those recovery reads for m and no active copy of a protected page. */
  ghost predicate Untouchable(g: Geometry, m: Mem, i: nat) {
    && i != 0 && i != m.active.PageId()
    && (forall b :: 0 <= b < |m.blocks| ==> m.blocks[b].Active() != i)
    && forall id: nat :: InUse(g, m, id) ==> ActivePhys(EntryOf(g, m, id)) != i
  }

  ghost predicate SameExcept(d: Disk, d': Disk, i: nat) {
    && |d.mapped| == |d'.mapped| && |d.durable| == |d'.durable|
    && (forall j: nat :: j != i && j < |d.durable| ==> d.durable[j] == d'.durable[j])
    && forall j: nat :: j != i ==> (j in d.dirty <==> j in d'.dirty)
  }

  /** On the pages below n, other than page 0 and page i, the two disks hold the same. */
  ghost predicate SameBelow(d: Disk, d': Disk, n: nat, i: nat) {
    && n <= |d.durable| && n <= |d'.durable|
    && (forall j: nat :: j < n && j != i ==> d.durable[j] == d'.durable[j])
    && (forall j: nat :: j < n && j != i ==> (j in d.dirty <==> j in d'.dirty))
  }

  lemma EncodesKept(g: Geometry, m: Mem, d: Disk, d': Disk, p0: Page, i: nat)
    requires Owned(m) && m.meta.total >= 4 && SameBelow(d, d', m.meta.total, i)
    requires |d.durable| >= 4 && Encodes(g, m, d.durable[0 := p0])
    requires i != m.active.PageId() && forall b :: 0 <= b < |m.blocks| ==> m.blocks[b].Active() != i
    ensures Encodes(g, m, d'.durable[0 := p0])
  {
    forall j | 0 <= j < |m.blocks|
      ensures m.blocks[j].Active() < |d'.durable|
              && d'.durable[0 := p0][m.blocks[j].Active()] == DirBytes(g, m.dirs[j])
    {
      BlockPageOwned(m, j);
    }
  }

  lemma CoreKept(m: Mem, d: Disk, d': Disk, i: nat)
    requires Owned(m) && m.meta.total >= 4 && SameBelow(d, d', m.meta.total, i) && CleanCore(m, d)
    requires i != m.active.PageId() && forall b :: 0 <= b < |m.blocks| ==> m.blocks[b].Active() != i
    ensures CleanCore(m, d')
  {
    forall j | 0 <= j < |m.blocks|
      ensures m.blocks[j].Active() !in d'.dirty
    {
      BlockPageOwned(m, j);
    }
  }

  lemma HoldsKept(g: Geometry, m: Mem, d: Disk, d': Disk, a: Abs, i: nat)
    requires Owned(m) && SameBelow(d, d', m.meta.total, i) && Holds(g, m, d, a)
    requires forall id: nat :: InUse(g, m, id) ==> ActivePhys(EntryOf(g, m, id)) != i
    ensures Holds(g, m, d', a)
  {
    forall id: nat | id in a && a[id].Some?
      ensures CopyHolds(d', EntryOf(g, m, id), a[id].value, g.crc)
    {
      ActiveCopyOwned(g, m, id);
    }
  }

  lemma TouchKeeps(g: Geometry, m: Mem, d: Disk, d': Disk, p0: Page, a: Abs, i: nat)
    requires Survives(g, m, d, p0, a) && Untouchable(g, m, i) && SameExcept(d, d', i)
    ensures Survives(g, m, d', p0, a)
  {
    assert SameBelow(d, d', m.meta.total, i);
    EncodesKept(g, m, d, d', p0, i);
    CoreKept(m, d, d', i);
    HoldsKept(g, m, d, d', a, i);
  }

  // ── Changing page 0 or the file length ─────────────────────────────────────

  lemma PageZeroKeeps(g: Geometry, m: Mem, d: Disk, d': Disk, p0: Page, a: Abs)
    requires Survives(g, m, d, p0, a)
    requires SameBelow(d, d', m.meta.total, 0) && |d'.mapped| == |d'.durable|
    ensures Survives(g, m, d', p0, a)
  {
    forall b | 0 <= b < |m.blocks|
      ensures m.blocks[b].Active() != 0
    {
      BlockPageOwned(m, b);
    }
    forall id: nat | InUse(g, m, id)
      ensures ActivePhys(EntryOf(g, m, id)) != 0
    {
      ActiveCopyOwned(g, m, id);
    }
    EncodesKept(g, m, d, d', p0, 0);
    CoreKept(m, d, d', 0);
    HoldsKept(g, m, d, d', a, 0);
  }

  lemma ResizeKeeps(g: Geometry, m: Mem, d: Disk, n: nat, p0: Page, a: Abs)
    requires Survives(g, m, d, p0, a) && m.meta.total <= n
    ensures Survives(g, m, SetLen(g, d, n), p0, a)
  {
    hide Survives, Zeros;
    SurvivesBounds(g, m, d, p0, a);
    PageZeroKeeps(g, m, d, SetLen(g, d, n), p0, a);
  }

  // ── Publishing ─────────────────────────────────────────────────────────────

  /** A disk between calls or between commits: page 0 is flushed. */
  ghost predicate Settled(d: Disk) {
    Sound(d) && |d.mapped| >= 4 && 0 !in d.dirty
  }

  /** The state `dur` is durable with contents a. */
  ghost predicate Durable(g: Geometry, s: Sys, a: Abs) {
    Settled(s.disk) && Sized(g, s.disk) && Survives(g, s.dur, s.disk, s.disk.durable[0], a)
  }

  lemma PointAdded(g: Geometry, trace: seq<Point>, pt: Point, a: Abs, b: Abs, x: Abs, y: Abs)
    requires TraceOk(g, trace, x, y) && PointOk(g, pt, a, b)
    requires (a == b && (a == x || a == y)) || (a == x && b == y)
    ensures TraceOk(g, trace + [pt], x, y)
  {
    hide PointOk;
  }

  lemma TraceWidens(g: Geometry, trace: seq<Point>, a: Abs, b: Abs)
    requires TraceOk(g, trace, a, a)
    ensures TraceOk(g, trace, a, b)
  {
    hide PointOk;
  }

  lemma EmptyTraceOk(g: Geometry, a: Abs)
    ensures TraceOk(g, [], a, a)
  {
  }

  lemma StoreAndFlush(d: Disk, i: nat, page: Page)
    requires Settled(d) && 0 < i < |d.mapped|
    ensures
      var d1 := Store(d, i, page);
      var d2 := Flush(d1, i);
      && Settled(d1) && SameExcept(d, d1, i)
      && d1.durable[0] == d1.mapped[0] == d.durable[0]
      && Settled(d2) && SameExcept(d, d2, i)
      && d2.durable[0] == d2.mapped[0] == d.durable[0]
  {
  }

  lemma StoreAndFlushZero(d: Disk, page0: Page, n: nat)
    requires Settled(d) && n <= |d.durable|
    ensures
      var d3 := Store(d, 0, page0);
      var d4 := Flush(d3, 0);
      && Sound(d3) && SameBelow(d, d3, n, 0)
      && d3.durable[0] == d.durable[0] && d3.mapped[0] == page0
      && Settled(d4) && SameBelow(d, d4, n, 0)
      && d4.durable[0] == d4.mapped[0] == page0
  {
  }

  /** The store of the new page and its flush: the old state survives both. */
  lemma PublishStores(g: Geometry, s: Sys, i: nat, page: Page, a: Abs)
    requires Durable(g, s, a) && Untouchable(g, s.dur, i) && i < |s.disk.mapped| && |page| == g.pageSize
    ensures
      var d1 := Store(s.disk, i, page);
      var d2 := Flush(d1, i);
      && PointOk(g, Point(d1, s.dur, s.dur), a, a) && PointOk(g, Point(d2, s.dur, s.dur), a, a)
      && Settled(d2) && Sized(g, d2) && d2.durable[0] == s.disk.durable[0] && Survives(g, s.dur, d2, d2.durable[0], a)
  {
    var d1 := Store(s.disk, i, page);
    var d2 := Flush(d1, i);
    assert i != 0;
    hide Survives, Sound, Sized, SameExcept, Untouchable;
    StoreAndFlush(s.disk, i, page);
    StoreSized(g, s.disk, i, page);
    FlushSized(g, d1, i);
    TouchKeeps(g, s.dur, s.disk, d1, s.disk.durable[0], a, i);
    TouchKeeps(g, s.dur, s.disk, d2, s.disk.durable[0], a, i);
  }

  lemma SurvivesBounds(g: Geometry, m: Mem, d: Disk, p0: Page, a: Abs)
    requires Survives(g, m, d, p0, a)
    ensures m.meta.total <= |d.durable| == |d.mapped|
  {
  }

  /** The store of page 0 and its flush: a crash finds the old state or the new one. */
  lemma PublishFlips(g: Geometry, dur: Mem, next: Mem, d2: Disk, page0: Page, a: Abs, b: Abs)
    requires Settled(d2) && Sized(g, d2) && |page0| == g.pageSize
    requires Survives(g, dur, d2, d2.durable[0], a) && Survives(g, next, d2, page0, b)
    ensures
      var d3 := Store(d2, 0, page0);
      var d4 := Flush(d3, 0);
      && PointOk(g, Point(d3, dur, next), a, b) && PointOk(g, Point(d4, next, next), b, b)
      && Settled(d4) && Sized(g, d4) && Survives(g, next, d4, d4.durable[0], b)
  {
    hide Survives, SameBelow, Sized;
    var d3 := Store(d2, 0, page0);
    var d4 := Flush(d3, 0);
    SurvivesBounds(g, dur, d2, d2.durable[0], a);
    SurvivesBounds(g, next, d2, page0, b);
    StoreAndFlushZero(d2, page0, dur.meta.total);
    StoreAndFlushZero(d2, page0, next.meta.total);
    StoreSized(g, d2, 0, page0);
    FlushSized(g, d3, 0);
    PageZeroKeeps(g, dur, d2, d3, d2.durable[0], a);
    PageZeroKeeps(g, next, d2, d3, page0, b);
    PageZeroKeeps(g, next, d2, d4, page0, b);
  }

  /** Publishing moves the durable state from dur to next; every disk in between recovers
      to one of them. */
  lemma PublishSafe(g: Geometry, s: Sys, i: nat, page: Page, page0: Page, next: Mem,
                    a: Abs, b: Abs, x: Abs, y: Abs)
    requires Durable(g, s, a) && Untouchable(g, s.dur, i) && i < |s.disk.mapped|
    requires |page| == |page0| == g.pageSize
    requires Survives(g, next, Flush(Store(s.disk, i, page), i), page0, b)
    requires TraceOk(g, s.trace, x, y)
    requires (a == b && (a == x || a == y)) || (a == x && b == y)
    ensures Durable(g, Publish(s, i, page, page0, next), b)
    ensures TraceOk(g, Publish(s, i, page, page0, next).trace, x, y)
  {
    hide Survives, PointOk, Sized;
    var d1 := Store(s.disk, i, page);
    var d2 := Flush(d1, i);
    var d3 := Store(d2, 0, page0);
    var d4 := Flush(d3, 0);
    PublishStores(g, s, i, page, a);
    PublishFlips(g, s.dur, next, d2, page0, a, b);
    var t0 := s.trace + [Point(d1, s.dur, s.dur)];
    var t1 := t0 + [Point(d2, s.dur, s.dur)];
    var t2 := t1 + [Point(d3, s.dur, next)];
    PointAdded(g, s.trace, Point(d1, s.dur, s.dur), a, a, x, y);
    PointAdded(g, t0, Point(d2, s.dur, s.dur), a, a, x, y);
    PointAdded(g, t1, Point(d3, s.dur, next), a, b, x, y);
    PointAdded(g, t2, Point(d4, next, next), b, b, x, y);
    assert Publish(s, i, page, page0, next).trace == t2 + [Point(d4, next, next)];
  }

  // ── The two commits ────────────────────────────────────────────────────────

  /** The durable state with memory's bitmap. */
  ghost function Held(s: Sys): Mem {
    s.dur.(meta := s.mem.meta)
  }

  /** Memory may be ahead of the durable state in the bitmap, in the generation, and in entries
      whose free has not landed; memory's file is the longer. */
  ghost predicate Agrees(s: Sys) {
    && s.mem.active == s.dur.active && s.mem.blocks == s.dur.blocks
    && DirsLag(s.mem.dirs, s.dur.dirs)
    && s.dur.meta.total <= s.mem.meta.total <= |s.disk.mapped|
  }

  lemma HoldsSameDirs(g: Geometry, m: Mem, m': Mem, d: Disk, a: Abs)
    requires Holds(g, m, d, a) && m.dirs == m'.dirs
    ensures Holds(g, m', d, a)
  {
    assert forall id: nat :: EntryOf(g, m', id) == EntryOf(g, m, id);
  }

  lemma LowPagesUntouchable(g: Geometry, m: Mem, i: nat)
    requires Owned(m) && 0 < i < FIRST_DATA_PAGE && i != m.active.PageId()
    ensures Untouchable(g, m, i)
  {
    forall b | 0 <= b < |m.blocks|
      ensures m.blocks[b].Active() != i
    {
      BlockPageOwned(m, b);
    }
    forall id: nat | InUse(g, m, id)
      ensures ActivePhys(EntryOf(g, m, id)) != i
    {
      ActiveCopyOwned(g, m, id);
    }
  }

  lemma BumpExact(m: Meta)
    requires Exact(m)
    ensures Exact(NextGeneration(m)) && AllocatedSet(NextGeneration(m)) == AllocatedSet(m)
  {
    assert AllocatedSet(NextGeneration(m)) == AllocatedSet(m);
  }

  /** Ownership looks at the directory and at the allocated pages only. */
  lemma OwnedByAllocation(m: Mem, m': Mem)
    requires Owned(m) && m'.blocks == m.blocks && m'.dirs == m.dirs
    requires AllocatedSet(m.meta) <= AllocatedSet(m'.meta)
    ensures Owned(m')
  {
    hide Sum, RefBags, DirBags, BitAt;
    assert Referenced(m') == Referenced(m);
    forall x: nat | x in Referenced(m)
      ensures Allocated(m'.meta, x)
    {
      assert x in AllocatedSet(m.meta);
    }
  }

  /** Counting up the generation, whichever metadata page is active afterwards. */
  lemma BumpConsistent(g: Geometry, m: Mem, active: Selector)
    requires Consistent(g, m) && m.meta.generation + 1 < U64_LIMIT
    ensures Consistent(g, m.(meta := NextGeneration(m.meta), active := active))
  {
    hide Exact, Owned, DirShape, Doubled, BytesFor, AllocatedSet;
    var m' := m.(meta := NextGeneration(m.meta), active := active);
    BumpExact(m.meta);
    OwnedByAllocation(m, m');
  }

  /** What a commit makes durable. */
  ghost function Committed(s: Sys): Mem {
    Held(s).(meta := NextGeneration(s.mem.meta), active := s.mem.active.Other())
  }

  /** The new bitmap is stored where the new state looks for it; the directory has not moved. */
  lemma CommitEncodes(g: Geometry, s: Sys)
    requires Settled(s.disk) && Agrees(s) && Consistent(g, s.dur)
    requires Encodes(g, s.dur, s.disk.durable[0 := s.disk.durable[0]]) && CleanCore(s.dur, s.disk)
    ensures
      var next := Committed(s);
      var i := next.active.PageId();
      var d2 := Flush(Store(s.disk, i, MetaBytes(g, next.meta)), i);
      && Encodes(g, next, d2.durable[0 := Page0(g, next)]) && CleanCore(next, d2)
  {
    hide Page0, MetaBytes, DirBytes, MetaFits, Exact, DirShape, Doubled, Owned;
    var next := Committed(s);
    var i := next.active.PageId();
    var d2 := Flush(Store(s.disk, i, MetaBytes(g, next.meta)), i);
    forall b | 0 <= b < |next.blocks|
      ensures next.blocks[b].Active() !in d2.dirty && next.blocks[b].Active() < |d2.durable|
      ensures d2.durable[0 := Page0(g, next)][next.blocks[b].Active()] == DirBytes(g, next.dirs[b])
    {
      BlockPageOwned(s.dur, b);
    }
  }

  /** What a commit stores is one page long. */
  lemma CommitPages(g: Geometry, m: Mem)
    requires Consistent(g, m)
    ensures |MetaBytes(g, m.meta)| == |Page0(g, m)| == g.pageSize
  {
    hide Exact, Doubled, DirShape, Owned, MetaBytes, Page0Bytes;
    ConsistentFits(g, m);
    MetaRoundTrip(g, m.meta);
    IndexRoundTrip(g, Super(g, m.active, g.crc(MetaBytes(g, m.meta))), m.blocks);
  }

  /** A bitmap commit makes memory's bitmap durable and keeps the contents. */
  lemma CommitSafe(g: Geometry, s: Sys, a: Abs, x: Abs, y: Abs)
    requires Durable(g, s, a) && Agrees(s) && Consistent(g, Held(s)) && s.mapped
    requires s.mem.meta.generation + 1 < U64_LIMIT
    requires TraceOk(g, s.trace, x, y) && (a == x || a == y)
    ensures
      var (s', r) := Commit(g, s);
      && r.Ok? && s'.mapped && |s'.disk.mapped| == |s.disk.mapped|
      && s'.mem == s.mem.(meta := NextGeneration(s.mem.meta), active := s.mem.active.Other())
      && s'.dur == Committed(s) && Consistent(g, s'.dur)
      && Durable(g, s', a) && TraceOk(g, s'.trace, x, y)
  {
    hide TraceOk, Page0Bytes, MetaBytes, Untouchable, Encodes, CleanCore, Holds, Sized, DirsLag;
    var next := Committed(s);
    var i := next.active.PageId();
    var buf := MetaBytes(g, next.meta);
    var d2 := Flush(Store(s.disk, i, buf), i);
    LowPagesUntouchable(g, s.dur, i);
    CommitEncodes(g, s);
    BumpConsistent(g, Held(s), s.mem.active.Other());
    CommitPages(g, next);
    PublishStores(g, s, i, buf, a);
    HoldsSameDirs(g, s.dur, next, d2, a);
    PublishSafe(g, s, i, buf, Page0(g, next), next, a, a, x, y);
  }
}
