/** Reachable states of the sub-page allocator, the bytes its ids denote, and reads and
    writes through them. */
module SubRuns {
  import opened Bytes
  import opened Results
  import opened Metadata
  import opened Disks
  import opened PagerSpec
  import opened Ownership
  import opened Safety
  import opened DirSafety
  import opened RawAllocation
  import opened Operations
  import opened Runs
  import opened Accounting
  import opened SubSlots
  import opened SubAllocation
  import opened SubSafety

  /** The sizes the source accepts: a big page is cut into n sub-pages of `size` bytes. */
  ghost predicate Cut(g: Geometry, size: nat, n: nat) {
    (exists k :: size == Pow2(k)) && n * size == g.pageSize && 1 < n <= 64
  }

  // ── Byte ranges ────────────────────────────────────────────────────────────

  /** Where a sub-page starts within its big page. */
  function Offset(size: nat, id: SubId): nat {
    id.sub * size
  }

  function BigOf(slots: Slots, id: SubId): nat
    requires id.slot < |slots| && slots[id.slot].Some?
  {
    slots[id.slot].value.id
  }

  /** Where it starts in the file. */
  function SubStart(g: Geometry, size: nat, slots: Slots, id: SubId): nat
    requires id.slot < |slots| && slots[id.slot].Some?
  {
    BigOf(slots, id) * g.pageSize + Offset(size, id)
  }

  lemma OffsetInside(g: Geometry, size: nat, n: nat, id: SubId)
    requires Cut(g, size, n) && id.sub < n
    ensures Offset(size, id) + size <= g.pageSize
  {
    NextMultiple(id.sub, n, size);
  }

  /** Two sub-pages never share a byte of the file. */
  lemma RangesDisjoint(g: Geometry, size: nat, n: nat, slots: Slots, x: SubId, y: SubId)
    requires Cut(g, size, n) && SlotsOk(n, slots)
    requires Addressable(n, slots, x) && Addressable(n, slots, y) && x != y
    ensures
      || SubStart(g, size, slots, x) + size <= SubStart(g, size, slots, y)
      || SubStart(g, size, slots, y) + size <= SubStart(g, size, slots, x)
  {
    hide Pow2, FullMask;
    if x.slot == y.slot {
      if x.sub < y.sub {
        NextMultiple(x.sub, y.sub, size);
      } else {
        NextMultiple(y.sub, x.sub, size);
      }
    } else {
      DistinctBigs(n, slots, x.slot, y.slot);
      OffsetInside(g, size, n, x);
      OffsetInside(g, size, n, y);
      if BigOf(slots, x) < BigOf(slots, y) {
        NextMultiple(BigOf(slots, x), BigOf(slots, y), g.pageSize);
      } else {
        NextMultiple(BigOf(slots, y), BigOf(slots, x), g.pageSize);
      }
    }
  }

  lemma DistinctBigs(n: nat, slots: Slots, i: nat, j: nat)
    requires SlotsOk(n, slots) && i < |slots| && j < |slots| && i != j && slots[i].Some? && slots[j].Some?
    ensures slots[i].value.id != slots[j].value.id
  {
  }

  lemma BigIsRegular(n: nat, s: SubSys, id: SubId)
    requires SubOk(n, s) && id.slot < |s.slots| && s.slots[id.slot].Some?
    ensures FIRST_DATA_PAGE <= BigOf(s.slots, id) < s.inner.mem.meta.total
    ensures BigOf(s.slots, id) in Regular(Held(s.inner)) && BigOf(s.slots, id) !in Referenced(s.inner.dur)
  {
    hide Referenced, SlotsOk;
    assert BigOf(s.slots, id) in BigPages(s.slots);
    InAllocatedSet(s.inner.mem.meta, BigOf(s.slots, id));
    SameDirectory(s.inner.dur, Held(s.inner));
  }

  /** Every sub-page lies in the file, after the three reserved pages. */
  lemma RangeInFile(g: Geometry, size: nat, n: nat, s: SubSys, id: SubId)
    requires Cut(g, size, n) && SubOk(n, s) && Addressable(n, s.slots, id)
    ensures 3 * g.pageSize <= SubStart(g, size, s.slots, id)
    ensures SubStart(g, size, s.slots, id) + size <= s.inner.mem.meta.total * g.pageSize
  {
    hide SubOk, Cut;
    BigIsRegular(n, s, id);
    OffsetInside(g, size, n, id);
    NextMultiple(2, BigOf(s.slots, id), g.pageSize);
    NextMultiple(BigOf(s.slots, id), s.inner.mem.meta.total, g.pageSize);
  }

  // ── Reading and writing ────────────────────────────────────────────────────

  /** The page a sub-page lies in, as the process sees it. */
  function PageOf(s: SubSys, id: SubId): Page
    requires id.slot < |s.slots| && s.slots[id.slot].Some?
  {
    MappedPage(s.inner.disk, BigOf(s.slots, id))
  }

  /** The sub-page, if there is one, lies within its big page; `PagesFit` says it always does. */
  predicate InPage(size: nat, n: nat, s: SubSys, id: SubId) {
    Addressable(n, s.slots, id) ==> Offset(size, id) + size <= |PageOf(s, id)|
  }

  /** `get`: the bytes of the sub-page. */
  function SubRead(size: nat, n: nat, s: SubSys, id: SubId): Result<seq<byte>>
    requires InPage(size, n, s, id)
  {
    if !Addressable(n, s.slots, id) then Err(OutOfBounds)
    else
      match ReadRegular(s.inner, BigOf(s.slots, id))
      case Err(e) => Err(e)
      case Ok(page) => Ok(page[Offset(size, id)..Offset(size, id) + size])
  }

  function Spliced(page: Page, at: nat, data: seq<byte>): (r: Page)
    requires at + |data| <= |page|
    ensures |r| == |page|
  {
    page[..at] + data + page[at + |data|..]
  }

  /** A store of the whole sub-page through `get_mut`. */
  function SubWrite(size: nat, n: nat, s: SubSys, id: SubId, data: seq<byte>): (SubSys, Result<()>)
    requires InPage(size, n, s, id) && |data| == size
  {
    if !Addressable(n, s.slots, id) then (s, Err(OutOfBounds))
    else
      var page := Spliced(PageOf(s, id), Offset(size, id), data);
      var (inner, r) := WriteRegular(Begin(s.inner), BigOf(s.slots, id), page);
      (s.(inner := inner), r)
  }

  lemma WholePageAt(g: Geometry, d: Disk, i: nat)
    requires Sized(g, d) && i < |d.mapped|
    ensures |MappedPage(d, i)| == g.pageSize
  {
  }

  /** Every big page is one page long, so each of its sub-pages lies within it. */
  lemma PagesFit(g: Geometry, size: nat, n: nat, s: SubSys, id: SubId, a: Abs)
    requires SubSteady(g, n, s, a) && Cut(g, size, n)
    ensures InPage(size, n, s, id)
    ensures Addressable(n, s.slots, id) ==> |PageOf(s, id)| == g.pageSize
  {
    hide Steady, SubOk, Cut, Sized, Offset;
    if Addressable(n, s.slots, id) {
      BigIsRegular(n, s, id);
      SteadyParts(g, s.inner, a);
      WholePageAt(g, s.inner.disk, BigOf(s.slots, id));
      OffsetInside(g, size, n, id);
    }
  }

  lemma StoredSteady(g: Geometry, n: nat, s: SubSys, inner: Sys, a: Abs)
    requires SubSteady(g, n, s, a) && Steady(g, inner, a) && inner.mem == s.inner.mem && inner.dur == s.inner.dur
    ensures SubSteady(g, n, s.(inner := inner), a) && Others(s.(inner := inner)) == Others(s)
  {
    hide Steady, SlotsOk, Regular, AllocatedSet, BigPages;
  }

  lemma WriteFrame(s: Sys, id: nat, page: Page)
    ensures
      var (s', r) := WriteRegular(s, id, page);
      s'.mem == s.mem && s'.dur == s.dur && s'.mapped == s.mapped
  {
  }

  lemma SubWriteSafe(g: Geometry, size: nat, n: nat, s: SubSys, id: SubId, data: seq<byte>, a: Abs)
    requires SubSteady(g, n, s, a) && Cut(g, size, n) && |data| == size && InPage(size, n, s, id)
    ensures
      var (s', r) := SubWrite(size, n, s, id, data);
      && SubSteady(g, n, s', a) && s'.slots == s.slots && s'.inner.mapped == s.inner.mapped
      && s'.inner.mem == s.inner.mem && Others(s') == Others(s)
      && (r.Ok? <==> Addressable(n, s.slots, id) && s.inner.mapped)
  {
    hide SubSteady, Steady, SubOk, Referenced, TraceOk, Cut, PageOf, Offset, Spliced, Others;
    if Addressable(n, s.slots, id) {
      SubParts(g, n, s, a);
      PagesFit(g, size, n, s, id, a);
      BigIsRegular(n, s, id);
      BeginSteady(g, s.inner, a);
      var page := Spliced(PageOf(s, id), Offset(size, id), data);
      WriteRegularSafe(g, Begin(s.inner), BigOf(s.slots, id), page, a);
      WriteFrame(Begin(s.inner), BigOf(s.slots, id), page);
      StoredSteady(g, n, s, WriteRegular(Begin(s.inner), BigOf(s.slots, id), page).0, a);
    }
  }

  lemma SplicedReads(page: Page, at: nat, data: seq<byte>, other: nat, size: nat)
    requires |data| == size && at + size <= |page| && other + size <= |page|
    ensures Spliced(page, at, data)[at..at + size] == data
    ensures other + size <= at || at + size <= other ==>
              Spliced(page, at, data)[other..other + size] == page[other..other + size]
  {
  }

  lemma SameBig(g: Geometry, size: nat, n: nat, id: SubId, other: SubId)
    requires Cut(g, size, n) && id.sub < n && other.sub < n && id.sub != other.sub
    ensures Offset(size, other) + size <= Offset(size, id) || Offset(size, id) + size <= Offset(size, other)
  {
    if id.sub < other.sub {
      NextMultiple(id.sub, other.sub, size);
    } else {
      NextMultiple(other.sub, id.sub, size);
    }
  }

  lemma WrittenPages(g: Geometry, size: nat, n: nat, s: SubSys, id: SubId, data: seq<byte>, other: SubId, a: Abs)
    requires SubSteady(g, n, s, a) && s.inner.mapped && InPage(size, n, s, id) && |data| == size
    requires Addressable(n, s.slots, id) && Addressable(n, s.slots, other)
    ensures SubWrite(size, n, s, id, data).0.slots == s.slots
    ensures
      PageOf(SubWrite(size, n, s, id, data).0, other) ==
      if other.slot == id.slot then Spliced(PageOf(s, id), Offset(size, id), data) else PageOf(s, other)
  {
    hide Steady, SubOk, Spliced, Offset, WriteRegular;
    BigIsRegular(n, s, id);
    SteadyParts(g, s.inner, a);
    var big := BigOf(s.slots, id);
    StoredRegular(s.inner, big, Spliced(PageOf(s, id), Offset(size, id), data), BigOf(s.slots, other));
    if other.slot != id.slot {
      OkDistinctBigs(n, s, id.slot, other.slot);
    }
  }

  lemma StoredRegular(s: Sys, big: nat, page: Page, x: nat)
    requires FIRST_DATA_PAGE <= big < s.mem.meta.total <= |s.disk.mapped| && s.mapped
    ensures
      var s' := WriteRegular(Begin(s), big, page).0;
      MappedPage(s'.disk, x) == if x == big then page else MappedPage(s.disk, x)
  {
  }

  lemma ReadsPage(g: Geometry, size: nat, n: nat, s: SubSys, id: SubId, a: Abs)
    requires SubSteady(g, n, s, a) && s.inner.mapped && Addressable(n, s.slots, id) && InPage(size, n, s, id)
    ensures SubRead(size, n, s, id) == Ok(PageOf(s, id)[Offset(size, id)..Offset(size, id) + size])
  {
    hide Steady, SubOk, Offset;
    BigIsRegular(n, s, id);
  }

  /** A write is read back from its own sub-page and changes no other. */
  lemma WriteIsLocal(g: Geometry, size: nat, n: nat, s: SubSys, id: SubId, data: seq<byte>, other: SubId, a: Abs)
    requires SubSteady(g, n, s, a) && s.inner.mapped && Cut(g, size, n) && |data| == size
    requires Addressable(n, s.slots, id) && Addressable(n, s.slots, other)
    ensures InPage(size, n, s, id) && InPage(size, n, s, other)
    ensures
      var s' := SubWrite(size, n, s, id, data).0;
      && InPage(size, n, s', id) && InPage(size, n, s', other)
      && SubRead(size, n, s', id) == Ok(data)
      && (other != id ==> SubRead(size, n, s', other) == SubRead(size, n, s, other))
  {
    hide SubSteady, Cut, Spliced, PageOf, SubRead, SubWrite, Offset, Others, InPage;
    PagesFit(g, size, n, s, id, a);
    PagesFit(g, size, n, s, other, a);
    SubWriteSafe(g, size, n, s, id, data, a);
    var s' := SubWrite(size, n, s, id, data).0;
    PagesFit(g, size, n, s', id, a);
    PagesFit(g, size, n, s', other, a);
    WrittenPages(g, size, n, s, id, data, id, a);
    WrittenPages(g, size, n, s, id, data, other, a);
    ReadsPage(g, size, n, s', id, a);
    ReadsPage(g, size, n, s, other, a);
    ReadsPage(g, size, n, s', other, a);
    OffsetInside(g, size, n, id);
    OffsetInside(g, size, n, other);
    SplicedReads(PageOf(s, id), Offset(size, id), data, Offset(size, other), size);
    if other != id && other.slot == id.slot {
      SameBig(g, size, n, id, other);
      SamePage(s, id, other);
    }
  }

  lemma SamePage(s: SubSys, id: SubId, other: SubId)
    requires id.slot == other.slot < |s.slots| && s.slots[id.slot].Some?
    ensures PageOf(s, other) == PageOf(s, id)
  {
  }

  lemma OkDistinctBigs(n: nat, s: SubSys, i: nat, j: nat)
    requires SubOk(n, s)
    requires i < |s.slots| && j < |s.slots| && i != j && s.slots[i].Some? && s.slots[j].Some?
    ensures s.slots[i].value.id != s.slots[j].value.id
  {
    hide BigPages, Regular;
    DistinctBigs(n, s.slots, i, j);
  }

  // ── Runs ───────────────────────────────────────────────────────────────────

  datatype SubOp =
    | SubOpAlloc(env: Env)
    | SubOpAllocBulk(env: Env, count: nat)
    | SubOpFree(id: SubId)
    | SubOpFreeBulk(ids: seq<SubId>)
    | SubOpWrite(id: SubId, data: seq<byte>)

  /** What is written is one sub-page, and that lies within its big page. */
  predicate Writable(size: nat, n: nat, s: SubSys, op: SubOp) {
    op.SubOpWrite? ==> |op.data| == size && InPage(size, n, s, op.id)
  }

  function SubDo(g: Geometry, size: nat, n: nat, s: SubSys, op: SubOp): SubSys
    requires Writable(size, n, s, op)
  {
    match op
    case SubOpAlloc(env) => SubAlloc(g, n, s, env).0
    case SubOpAllocBulk(env, count) => SubAllocBulk(g, n, s, env, count).0
    case SubOpFree(id) => SubFree(g, n, s, id).0
    case SubOpFreeBulk(ids) => SubFreeBulk(g, n, s, ids).0
    case SubOpWrite(id, data) => SubWrite(size, n, s, id, data).0
  }

  function SubDemand(op: SubOp): nat {
    match op
    case SubOpAlloc(_) => 1
    case SubOpAllocBulk(_, count) => count
    case _ => 0
  }

  /** At most this many pager calls that count up the generation. */
  function SubCost(op: SubOp): nat {
    match op
    case SubOpAlloc(_) => 1
    case SubOpAllocBulk(_, count) => 2 * count
    case SubOpFree(_) => 1
    case SubOpFreeBulk(ids) => |ids|
    case SubOpWrite(_, _) => 0
  }

  /** Any call, with or without a mapping: the grown bitmap would fit and generations do not wrap. */
  ghost predicate SubNext(g: Geometry, size: nat, n: nat, s: SubSys, op: SubOp, s': SubSys) {
    && Capacity(g, s.inner.mem.meta, SubDemand(op))
    && s.inner.mem.meta.generation + SubCost(op) < U64_LIMIT
    && Writable(size, n, s, op) && s' == SubDo(g, size, n, s, op)
  }

  lemma SubStepSafe(g: Geometry, size: nat, n: nat, s: SubSys, op: SubOp, s': SubSys, a: Abs)
    requires SubSteady(g, n, s, a) && Cut(g, size, n) && SubNext(g, size, n, s, op, s')
    ensures SubSteady(g, n, s', a) && Others(s) <= Others(s')
    ensures s.inner.mapped ==> Others(s') == Others(s)
  {
    hide SubSteady, Steady, Capacity, SubAlloc, SubAllocBulk, SubFree, SubFreeBulk, SubWrite, Freed, SubSlots.Live, AllLive,
         TookSubs, Others, InPage, Cleared, SubAllocEach;
    CutBound(g, size, n);
    match op
    case SubOpAlloc(env) => SubAllocSafe(g, n, s, env, a, 1);
    case SubOpAllocBulk(env, count) => SubAllocBulkExact(g, n, s, env, count, a);
    case SubOpFree(id) => SubFreeSafe(g, n, s, id, a);
    case SubOpFreeBulk(ids) =>
      SubFreeBulkSafe(g, n, s, ids, a);
      if s.inner.mapped {
        SubFreeBulkExact(g, n, s, ids, a);
        if SubFreeBulk(g, n, s, ids).1.Ok? {
          FreedFacts(g, n, s, ids, s', a);
        }
      }
    case SubOpWrite(id, data) => SubWriteSafe(g, size, n, s, id, data, a);
  }

  lemma CutBound(g: Geometry, size: nat, n: nat)
    requires Cut(g, size, n)
    ensures 0 < n <= 64
  {
  }

  /** A new allocator on a pager, then any sequence of calls. */
  ghost predicate IsSubRun(g: Geometry, size: nat, n: nat, inner: Sys, ss: seq<SubSys>, ops: seq<SubOp>) {
    && |ss| == |ops| + 1 && ss[0] == SubSys([], inner)
    && forall i :: 0 <= i < |ops| ==> SubNext(g, size, n, ss[i], ops[i], ss[i + 1])
  }

  lemma NewSubSteady(g: Geometry, n: nat, inner: Sys, a: Abs)
    requires Steady(g, inner, a)
    ensures SubSteady(g, n, SubSys([], inner), a) && Others(SubSys([], inner)) == AllocatedSet(inner.mem.meta)
  {
    hide Steady, Regular, AllocatedSet;
    assert BigPages([]) == {};
  }

  /** In every reachable state, whether or not the pager lost its mapping on the way, the slots are
      sound, the big pages are pages the directory does not refer to, in memory or on disk, the
      pager's own invariant and contents are untouched, and no page that was allocated before the
      allocator came is given away. As long as the file stayed mapped those are exactly the pages
      that are not the allocator's. */
  lemma {:induction false} SubRunSafe(g: Geometry, size: nat, n: nat, inner: Sys, ss: seq<SubSys>, ops: seq<SubOp>, a: Abs)
    requires Cut(g, size, n) && Steady(g, inner, a) && IsSubRun(g, size, n, inner, ss, ops)
    ensures forall i :: 0 <= i < |ss| ==> SubSteady(g, n, ss[i], a) && AllocatedSet(inner.mem.meta) <= Others(ss[i])
    ensures (forall i :: 0 <= i < |ops| ==> ss[i].inner.mapped) ==> Others(ss[|ops|]) == AllocatedSet(inner.mem.meta)
    decreases |ops|
  {
    hide SubSteady, SubNext, Steady, Cut, AllocatedSet, Others;
    if ops == [] {
      NewSubSteady(g, n, inner, a);
    } else {
      var last := |ops| - 1;
      SubRunSafe(g, size, n, inner, ss[..last + 1], ops[..last], a);
      assert ss[..last + 1][last] == ss[last];
      SubStepSafe(g, size, n, ss[last], ops[last], ss[last + 1], a);
      assert forall i :: 0 <= i < last ==> ss[..last + 1][i] == ss[i];
    }
  }

  /** Sub-page safety over runs: two different sub-pages denote disjoint bytes of the file,
      none of them in the reserved pages, and every one of them can be read and written. */
  lemma DisjointInRuns(g: Geometry, size: nat, n: nat, inner: Sys, ss: seq<SubSys>, ops: seq<SubOp>, a: Abs,
                       i: nat, x: SubId, y: SubId)
    requires Cut(g, size, n) && Steady(g, inner, a) && IsSubRun(g, size, n, inner, ss, ops)
    requires i < |ss| && x != y && Addressable(n, ss[i].slots, x) && Addressable(n, ss[i].slots, y)
    ensures InPage(size, n, ss[i], x) && InPage(size, n, ss[i], y)
    ensures
      var p, q := SubStart(g, size, ss[i].slots, x), SubStart(g, size, ss[i].slots, y);
      (p + size <= q || q + size <= p) && 3 * g.pageSize <= p && 3 * g.pageSize <= q
  {
    hide SubSteady, SubOk, Steady, Cut, IsSubRun, SubStart, InPage, SlotsOk;
    SubRunSafe(g, size, n, inner, ss, ops, a);
    SubParts(g, n, ss[i], a);
    PagesFit(g, size, n, ss[i], x, a);
    PagesFit(g, size, n, ss[i], y, a);
    RangesDisjoint(g, size, n, ss[i].slots, x, y);
    RangeInFile(g, size, n, ss[i], x);
    RangeInFile(g, size, n, ss[i], y);
  }
}
