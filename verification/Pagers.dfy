/** The pager of src/pager.rs as an object that updates its fields in place. Every method
    computes the function of PagerSpec that describes it; what that does to the protected
    pages and to a crash at any step comes from the lemmas about those functions. */
module Pagers {
  import opened Bytes
  import opened Bits
  import opened Results
  import opened Metadata
  import opened Layout
  import opened Serialization
  import opened Disks
  import opened Recovery
  import opened OpenRules
  import opened Formats
  import opened PagerSpec
  import opened Sorting
  import opened Safety
  import opened RawAllocation
  import opened Entries
  import opened Bulk
  import opened Operations
  import opened Runs
  import opened ProtectedBulk
  import opened Stranding
  import opened Persistence
  import opened Shape
  import opened Opening
  import opened PagerSteps

  /** What a call owes its caller: a state between calls, the right effect on the protected
      pages, and a recoverable file at every step. */
  ghost predicate Correct(g: Geometry, op: Op, reply: Reply, v: View, s: Sys, v': View) {
    Shows(g, s, v') && TraceOk(g, s.trace, v.pages, v'.pages) && AbsStep(v, op, reply, v')
  }

  class Pager {
    const g: Geometry
    const meta: MetaPage
    /** The file and, while `mapped`, its mapping. */
    var disk: Disk
    var mapped: bool
    var active: Selector
    var blocks: seq<DirBlockRef>
    var dirs: seq<DirPage>
    /** The state the file describes, and the disks of the call in progress. */
    ghost var dur: Mem
    ghost var trace: seq<Point>
    /** The protected pages as users see them, while every call so far was allowed. */
    ghost var intact: bool
    ghost var contents: View

    ghost function Memory(): Mem
      reads this, meta
    {
      Mem(meta.View(), active, blocks, dirs)
    }

    ghost function State(): Sys
      reads this, meta
    {
      Sys(Memory(), dur, mapped, disk, trace)
    }

    ghost predicate Valid()
      reads this, meta
    {
      Shaped(g, State()) && (intact ==> Shows(g, State(), contents))
    }

    /** The call is one the safety results are about. */
    ghost predicate Good(op: Op)
      reads this, meta
    {
      intact && Allowed(g, State(), op)
    }

    // ── Construction ─────────────────────────────────────────────────────────

    /** `create`, on a new file: both metadata pages hold the empty bitmap. */
    constructor Create(g: Geometry)
      ensures this.g == g && fresh(meta) && State() == Created(g)
      ensures Valid() && intact && contents == Reopened(map[])
    {
      hide Ready, Shows, Shaped, InitialFile, NewMeta, Reopened;
      var initial := new MetaPage.NewForCapacity(4);
      var file := WriteInitialFile(g, initial);
      this.g, meta, disk, mapped, active, blocks, dirs := g, initial, Fresh(file), true, A, [], [];
      dur, trace, intact, contents := InitialMem(), [], true, Reopened(map[]);
      CreatedReady(g);
      BootGood(g, InitialMem(), file, map[]);
    }

    /** A pager over a file whose metadata has been loaded; `a` is what its user knows it holds. */
    constructor Loaded(g: Geometry, meta: MetaPage, selector: Selector, refs: seq<DirBlockRef>,
                       pages: seq<DirPage>, file: seq<Page>, ghost a: Abs)
      ensures this.g == g && this.meta == meta
      ensures State() == Boot(Mem(meta.View(), selector, refs, pages), file)
      ensures Ready(g, State(), a) ==> Valid() && intact && contents == Reopened(a)
    {
      hide Ready, Shows, Shaped, Reopened;
      this.g, this.meta, disk, mapped := g, meta, Fresh(file), true;
      active, blocks, dirs := selector, refs, pages;
      ghost var m := Mem(meta.View(), selector, refs, pages);
      dur, trace, contents, intact := m, [], Reopened(a), Ready(g, Boot(m, file), a);
      if Ready(g, Boot(m, file), a) {
        BootGood(g, m, file, a);
      }
    }

    /** `open`: whatever the file, exactly what the recovery function says. */
    static method Open(g: Geometry, file: seq<Page>, ghost a: Abs) returns (r: Result<Pager>)
      ensures r.Ok? ==> Opens(g, file, r.value.State().mem)
      ensures r.Err? ==> forall m :: !Opens(g, file, m)
      ensures
        match Recovery.Open(g, file)
        case Err(e) => r == Err(e)
        case Ok(m) =>
          && r.Ok? && fresh(r.value) && fresh(r.value.meta) && r.value.g == g
          && r.value.State() == Boot(m, file)
          && (Ready(g, Boot(m, file), a) ==> r.value.Valid() && r.value.intact && r.value.contents == Reopened(a))
    {
      hide ParseSuper, ValidMagic, ParseMeta, ParseIndex, ParseDir, Ready, Opens, LoadsAll, SaysIndex;
      OpenExactly(g, file);
      if |file| == 0 || |file[0]| < 20 {
        return Err(CorruptSuperblock);
      }
      var sb := ParseSuper(file[0][..20]);
      if sb.None? || !ValidMagic(sb.value) {
        return Err(CorruptSuperblock);
      }
      if Pow2(sb.value.log2) != g.pageSize {
        return Err(InvalidPageSize);
      }
      if |file| < 4 {
        return Err(CorruptSuperblock);
      }
      var selector := sb.value.active;
      var found := ParseMeta(g, file[selector.PageId()]);
      if found.None? || g.crc(file[selector.PageId()]) != sb.value.checksum {
        selector := selector.Other();
        found := ParseMeta(g, file[selector.PageId()]);
        if found.None? {
          return Err(CorruptMetadata);
        }
      }
      var refs := ReadDirBlocks(g, file[0]);
      if refs.None? {
        return Err(CorruptDirectoryIndex);
      }
      var loaded := LoadAll(g, file, refs.value);
      if loaded.None? {
        return Err(CorruptProtectedDirectory);
      }
      var meta := new MetaPage.FromView(found.value);
      var pager := new Pager.Loaded(g, meta, selector, loaded.value.0, loaded.value.1, file, a);
      return Ok(pager);
    }

    // ── Device steps ─────────────────────────────────────────────────────────

    method StorePage(i: nat, page: Page, ghost next: Mem)
      requires i < |disk.mapped|
      modifies `disk, `trace
      ensures disk == Store(old(disk), i, page)
      ensures trace == old(trace) + [Point(disk, dur, next)]
    {
      disk := Store(disk, i, page);
      trace := trace + [Point(disk, dur, next)];
    }

    method FlushPage(i: nat, ghost next: Mem)
      requires i < |disk.mapped|
      modifies `disk, `trace, `dur
      ensures disk == Flush(old(disk), i) && dur == next
      ensures trace == old(trace) + [Point(disk, next, next)]
    {
      disk := Flush(disk, i);
      dur := next;
      trace := trace + [Point(disk, next, next)];
    }

    method BuildPage0(selector: Selector, checksum: u32) returns (page0: Page)
      requires |blocks| <= MaxDirBlocks(g.pageSize)
      ensures page0 == Page0Bytes(g, Super(g, selector, checksum), blocks) && |page0| == g.pageSize
    {
      page0 := WritePage0(g, Super(g, selector, checksum), blocks);
    }

    method PageChecksumAt(phys: nat) returns (checksum: u32)
      requires mapped ==> phys < |disk.mapped|
      ensures mapped ==> checksum == g.crc(MappedPage(disk, phys))
      ensures !mapped ==> checksum == 0
    {
      if !mapped {
        return 0;
      }
      return g.crc(disk.mapped[phys]);
    }

    // ── Commits ──────────────────────────────────────────────────────────────

    method Commit() returns (r: Result<()>)
      requires Shaped(g, State())
      modifies `disk, `trace, `dur, `active, meta
      ensures Shaped(g, State())
      ensures (State(), r) == PagerSpec.Commit(g, old(State()))
    {
      hide Shaped, Store, Flush, MetaBytes, Page0Bytes, Super, Sized;
      ShapedBounds(g, State());
      BumpShaped(g, State());
      var inactive := active.Other();
      meta.generation := meta.generation + 1;
      var buf := new byte[g.pageSize](_ => 0);
      WriteMetaPage(g, meta.View(), buf);
      var metaBuf := buf[..];
      var metaChecksum := g.crc(metaBuf);
      if !mapped {
        return Err(Unavailable);
      }
      ghost var was := State();
      ghost var next := Mem(was.mem.meta, inactive, blocks, dur.dirs);
      ShapedSized(g, was);
      StoreSizes(g, disk, inactive.PageId(), metaBuf);
      StorePage(inactive.PageId(), metaBuf, dur);
      FlushPage(inactive.PageId(), dur);
      var page0 := BuildPage0(inactive, metaChecksum);
      StoreSizes(g, disk, 0, page0);
      StorePage(0, page0, next);
      FlushPage(0, next);
      active := inactive;
      PublishSteps(was, inactive.PageId(), metaBuf, page0, next);
      KeepsShape(g, was, State());
      return Ok(());
    }

    method CommitDirBlock(b: nat) returns (r: Result<()>)
      requires Shaped(g, State()) && b < |blocks|
      modifies `disk, `trace, `dur, `blocks
      ensures Shaped(g, State())
      ensures |old(State()).mem.dirs| == |old(State()).mem.blocks|
      ensures (State(), r) == CommitDir(g, old(State()), b)
    {
      hide Shaped, Store, Flush, DirBytes, Page0Bytes, Super, Landed, Sized;
      ShapedBounds(g, State());
      BlockInside(g, State(), b);
      var buf := new byte[g.pageSize](_ => 0);
      WriteDirPage(g, dirs[b], buf);
      var dirBuf := buf[..];
      var block := blocks[b];
      var inactiveSel := block.active.Other();
      var inactivePhys := if inactiveSel.A? then block.pageA else block.pageB;
      if !mapped {
        return Err(Unavailable);
      }
      ghost var was := State();
      ShapedSized(g, was);
      StoreSizes(g, disk, inactivePhys, dirBuf);
      StorePage(inactivePhys, dirBuf, dur);
      FlushPage(inactivePhys, dur);
      blocks := blocks[b := block.(active := inactiveSel)];
      var metaChecksum := g.crc(disk.mapped[active.PageId()]);
      var page0 := BuildPage0(active, metaChecksum);
      ghost var next := Mem(dur.meta, active, blocks, Landed(was, b));
      StoreSizes(g, disk, 0, page0);
      StorePage(0, page0, next);
      FlushPage(0, next);
      PublishSteps(was, inactivePhys, dirBuf, page0, next);
      FlipShape(g, was, State(), b);
      return Ok(());
    }

    // ── Calls ────────────────────────────────────────────────────────────────

    ghost method StartCall()
      modifies `trace
      ensures State() == Begin(old(State()))
    {
      trace := [Point(disk, dur, dur)];
    }

    /** The call that started in state s with view v has returned. */
    ghost method EndCall(s: Sys, v: View, good: bool, op: Op, reply: Reply)
      requires Shaped(g, s) && Shaped(g, State()) && |s.mem.blocks| == |s.mem.dirs|
      requires good ==> Shows(g, s, v) && Allowed(g, s, op)
      requires (State(), reply) == Do(g, Begin(s), op)
      modifies `contents, `intact
      ensures Valid() && (good ==> intact && Correct(g, op, reply, v, State(), contents))
    {
      hide Shaped, Shows, Do, TraceOk, AbsStep, Begin, Capacity, OwnPages, EntryOf;
      intact := good;
      if good {
        contents := CallSafe(g, s, op, v);
      }
    }

    // ── Regular pages ────────────────────────────────────────────────────────

    method Grow(env: Env) returns (r: Result<()>)
      modifies `disk, `mapped, `trace, meta
      ensures (State(), r) == PagerSpec.Grow(g, old(State()), env)
    {
      hide SetLen, GrowTo;
      var oldTotal, newTotal := meta.totalPages, meta.totalPages * 2;
      mapped := false;
      var answer := env(newTotal);
      if answer.Refused? {
        mapped := answer.remaps;
        return Err(Io);
      }
      disk := SetLen(g, disk, newTotal);
      trace := trace + [Point(disk, dur, dur)];
      if answer.Grown? {
        mapped := true;
        meta.GrowPages(newTotal);
        return Ok(());
      }
      if answer.shrinks {
        disk := SetLen(g, disk, oldTotal);
        trace := trace + [Point(disk, dur, dur)];
      }
      return Err(Io);
    }

    /** n is the number of pages the call in progress may still take. */
    method AllocOneRaw(env: Env, ghost n: nat) returns (r: Result<nat>)
      requires Shaped(g, State()) && n > 0 && Capacity(g, meta.View(), n)
      modifies `disk, `mapped, `trace, meta
      ensures Shaped(g, State())
      ensures (State(), r) == AllocRaw(g, old(State()), env)
      ensures r.Ok? ==> Capacity(g, meta.View(), n - 1) && InData(meta.totalPages, r.value)
      ensures old(meta.totalPages) <= meta.totalPages
    {
      hide Shaped, FreeSlot, Mark, GrowTo, SetLen, Capacity, Sized;
      ghost var was := State();
      var slot := meta.AllocPage();
      if slot.Some? {
        TakeShaped(g, was, slot.value, n);
        MarkTotal(was.mem.meta, slot.value);
        return Ok(slot.value);
      }
      var grown := Grow(env);
      GrowTotals(was.mem.meta, 2 * was.mem.meta.total);
      ShapedSized(g, was);
      GrowDisk(g, was, env);
      if grown.Err? {
        UngrownShape(g, was, env);
        return Err(grown.error);
      }
      ghost var larger := State();
      GrowShaped(g, was, larger, n);
      slot := meta.AllocPage();
      TakeShaped(g, larger, slot.value, n);
      MarkTotal(larger.mem.meta, slot.value);
      return Ok(slot.value);
    }

    /** A caller that goes on allocating says how many more pages it may take. */
    method Alloc(env: Env, ghost n: nat := 1) returns (r: Result<nat>)
      requires Valid() && 1 <= n && Capacity(g, meta.View(), n)
      modifies this, meta
      ensures r.Ok? ==> Capacity(g, meta.View(), n - 1)
      ensures Valid() && (State(), Id(r)) == Do(g, Begin(old(State())), OpAlloc(env))
      ensures old(Good(OpAlloc(env))) ==>
                intact && Correct(g, OpAlloc(env), Id(r), old(contents), State(), contents)
    {
      hide Shaped, Shows, AllocRaw, PagerSpec.Commit, Allowed, Capacity, Correct;
      ghost var was, v, good := State(), contents, Good(OpAlloc(env));
      BeginShaped(g, was);
      StartCall();
      r := AllocOneRaw(env, n);
      if r.Ok? {
        CommitFrame(g, State());
        ghost var taken := meta.View();
        var c := Commit();
        CapacityOfBits(g, taken, meta.View(), n - 1);
        if c.Err? {
          r := Err(c.error);
        }
      }
      EndCall(was, v, good, OpAlloc(env), Id(r));
    }

    method Free(id: nat) returns (r: Result<()>)
      requires Valid()
      modifies this, meta
      ensures Valid() && (State(), Unit(r)) == Do(g, Begin(old(State())), OpFree(id))
      ensures FreeReply(old(State()), id, r)
      ensures old(Good(OpFree(id))) ==>
                intact && Correct(g, OpFree(id), Unit(r), old(contents), State(), contents)
    {
      hide Shaped, Shows, PagerSpec.Commit, Allowed, Unmark, Correct, FreeReply, Exact;
      ghost var was, v, good := State(), contents, Good(OpFree(id));
      BeginShaped(g, was);
      ShapedBounds(g, was);
      FreeShaped(g, was, id);
      StartCall();
      if id < FIRST_DATA_PAGE {
        r := Err(ReservedPage);
      } else {
        UnmarkShaped(g, State(), id);
        var freed := meta.FreePage(id);
        if !freed {
          UnmarkNothing(was.mem.meta, id);
          r := Err(if id >= meta.totalPages then OutOfBounds else DoubleFree);
        } else {
          r := Commit();
        }
      }
      EndCall(was, v, good, OpFree(id), Unit(r));
    }

    /** A store through `get_page_mut`. */
    method WritePage(id: nat, page: Page) returns (r: Result<()>)
      requires Valid() && |page| == g.pageSize
      modifies this
      ensures Valid() && (State(), Unit(r)) == Do(g, Begin(old(State())), OpWriteRegular(id, page))
      ensures old(Good(OpWriteRegular(id, page))) ==>
                intact && Correct(g, OpWriteRegular(id, page), Unit(r), old(contents), State(), contents)
    {
      hide Shaped, Shows, Store, Allowed, Correct, Sized;
      ghost var op := OpWriteRegular(id, page);
      ghost var was, v, good := State(), contents, Good(op);
      BeginShaped(g, was);
      ShapedBounds(g, was);
      StartCall();
      if id < FIRST_DATA_PAGE {
        r := Err(ReservedPage);
      } else if id >= meta.totalPages {
        r := Err(OutOfBounds);
      } else if !mapped {
        r := Err(Unavailable);
      } else {
        StorePage(id, page, dur);
        ShapedSized(g, was);
        StoreSizes(g, was.disk, id, page);
        KeepsShape(g, was, State());
        r := Ok(());
      }
      EndCall(was, v, good, op, Unit(r));
    }

    method GetPage(id: nat) returns (r: Result<Page>)
      requires Valid()
      ensures r == ReadRegular(State(), id)
    {
      if id < FIRST_DATA_PAGE {
        return Err(ReservedPage);
      }
      if id >= meta.totalPages {
        return Err(OutOfBounds);
      }
      if !mapped {
        return Err(Unavailable);
      }
      return Ok(disk.mapped[id]);
    }

    // ── Bulk operations ──────────────────────────────────────────────────────

    /** Clears the bits one after the other. */
    method FreeAll(ids: seq<nat>)
      requires Shaped(g, State()) && forall x :: x in ids ==> FIRST_DATA_PAGE <= x
      modifies meta
      ensures Shaped(g, State())
      ensures State() == WithMeta(old(State()), UnmarkAll(old(meta.View()), ids))
    {
      hide Shaped, Unmark;
      var i := 0;
      assert ids[0..] == ids;
      while i < |ids|
        invariant i <= |ids| && Shaped(g, State())
        invariant UnmarkAll(old(meta.View()), ids) == UnmarkAll(meta.View(), ids[i..])
        invariant State() == WithMeta(old(State()), meta.View())
      {
        assert ids[i..][1..] == ids[i + 1..];
        ShapedBounds(g, State());
        assert ids[i] in ids;
        UnmarkShaped(g, State(), ids[i]);
        var _ := meta.FreePage(ids[i]);
        i := i + 1;
      }
    }

    method AllocBulk(env: Env, count: nat) returns (r: Result<seq<nat>>)
      requires Valid() && Capacity(g, meta.View(), count)
      modifies this, meta
      ensures Valid() && (State(), Ids(r)) == Do(g, Begin(old(State())), OpAllocBulk(env, count))
      ensures old(Good(OpAllocBulk(env, count))) ==>
                intact && Correct(g, OpAllocBulk(env, count), Ids(r), old(contents), State(), contents)
    {
      hide Shaped, Shows, AllocRaw, AllocRaws, PagerSpec.Commit, Allowed, Capacity, Correct, UnmarkAll;
      ghost var op := OpAllocBulk(env, count);
      ghost var was, v, good := State(), contents, Good(op);
      BeginShaped(g, was);
      StartCall();
      r := TakeBulk(env, count);
      EndCall(was, v, good, op, Ids(r));
    }

    method TakeBulk(env: Env, count: nat) returns (r: Result<seq<nat>>)
      requires Shaped(g, State()) && Capacity(g, meta.View(), count)
      modifies `disk, `mapped, `trace, `dur, `active, meta
      ensures Shaped(g, State()) && (State(), r) == Bulk.AllocBulk(g, old(State()), env, count)
    {
      hide Shaped, AllocRaw, AllocRaws, PagerSpec.Commit, Capacity, UnmarkAll;
      if count == 0 {
        return Ok([]);
      }
      var ids, i := [], 0;
      ghost var was := State();
      TakingNothing(AllocRaws(g, was, env, count));
      while i < count
        invariant i <= count && Shaped(g, State()) && Capacity(g, meta.View(), count - i)
        invariant forall x :: x in ids ==> FIRST_DATA_PAGE <= x
        invariant AllocRaws(g, was, env, count) == Taking(ids, AllocRaws(g, State(), env, count - i))
      {
        RawsStep(g, State(), env, count - i, ids);
        var one := AllocOneRaw(env, count - i);
        if one.Err? {
          FreeAll(ids);
          return Err(one.error);
        }
        ids := ids + [one.value];
        i := i + 1;
      }
      RawsStep(g, State(), env, 0, ids);
      var c := Commit();
      if c.Err? {
        return Err(c.error);
      }
      return Ok(ids);
    }

    method CheckAll(ids: seq<nat>) returns (r: Result<()>)
      requires Shaped(g, State())
      ensures r == CheckIds(meta.View(), ids)
    {
      hide Shaped;
      ShapedBounds(g, State());
      var i := 0;
      assert ids[0..] == ids;
      while i < |ids|
        invariant i <= |ids| && CheckIds(meta.View(), ids) == CheckIds(meta.View(), ids[i..])
      {
        assert ids[i..][1..] == ids[i + 1..];
        if ids[i] < FIRST_DATA_PAGE {
          return Err(ReservedPage);
        }
        if ids[i] >= meta.totalPages {
          return Err(OutOfBounds);
        }
        if !Bit(meta.bitmap[ids[i] / 8], ids[i] % 8) {
          return Err(DoubleFree);
        }
        i := i + 1;
      }
      return Ok(());
    }

    method FreeBulk(ids: seq<nat>) returns (r: Result<()>)
      requires Valid()
      modifies this, meta
      ensures Valid() && (State(), Unit(r)) == Do(g, Begin(old(State())), OpFreeBulk(ids))
      ensures old(Good(OpFreeBulk(ids))) ==>
                intact && Correct(g, OpFreeBulk(ids), Unit(r), old(contents), State(), contents)
    {
      hide Shaped, Shows, PagerSpec.Commit, Allowed, Correct, UnmarkAll, CheckIds, Sort, AdjacentEqual;
      ghost var op := OpFreeBulk(ids);
      ghost var was, v, good := State(), contents, Good(op);
      BeginShaped(g, was);
      StartCall();
      r := ReleaseBulk(ids);
      EndCall(was, v, good, op, Unit(r));
    }

    method ReleaseBulk(ids: seq<nat>) returns (r: Result<()>)
      requires Shaped(g, State())
      modifies `disk, `trace, `dur, `active, meta
      ensures Shaped(g, State()) && (State(), r) == Bulk.FreeBulk(g, old(State()), ids)
    {
      hide Shaped, PagerSpec.Commit, UnmarkAll, CheckIds, Sort, AdjacentEqual;
      if |ids| == 0 {
        return Ok(());
      }
      var sorted := Sort(ids, IdLeq);
      var duplicate := AnyNeighboursEqual(sorted);
      if duplicate {
        return Err(DoubleFree);
      }
      r := CheckAll(sorted);
      if r.Err? {
        return;
      }
      CheckIdsDecides(meta.View(), sorted);
      FreeAll(sorted);
      r := Commit();
    }

    // ── Protected pages ──────────────────────────────────────────────────────

    method AllocProtected(env: Env) returns (r: Result<nat>)
      requires Valid() && Capacity(g, meta.View(), Needed(g, Memory()))
      modifies this, meta
      ensures |old(Memory()).blocks| == |old(Memory()).dirs|
      ensures Valid() && (State(), Id(r)) == Do(g, Begin(old(State())), OpAllocProtected(env))
      ensures old(Good(OpAllocProtected(env))) ==>
                intact && Correct(g, OpAllocProtected(env), Id(r), old(contents), State(), contents)
    {
      hide Shaped, Shows, AllocInBlock, AllocNewBlock, Allowed, Capacity, Correct, Needed;
      ghost var op := OpAllocProtected(env);
      ghost var was, v, good := State(), contents, Good(op);
      BeginShaped(g, was);
      StartCall();
      r := ClaimSlot(env);
      EndCall(was, v, good, op, Id(r));
    }

    method ClaimSlot(env: Env) returns (r: Result<nat>)
      requires Shaped(g, State()) && Capacity(g, meta.View(), Needed(g, Memory()))
      modifies `disk, `mapped, `trace, `dur, `active, `blocks, `dirs, meta
      ensures |old(State()).mem.blocks| == |old(State()).mem.dirs|
      ensures Shaped(g, State()) && (State(), r) == PagerSpec.AllocProtected(g, old(State()), env)
    {
      hide Shaped, AllocInBlock, AllocNewBlock, Capacity, FirstFreeEntry;
      ShapedBounds(g, State());
      var blockIdx := 0;
      while blockIdx < |dirs|
        invariant blockIdx <= |dirs| && State() == old(State())
        invariant forall k :: 0 <= k < blockIdx ==> FirstFreeEntry(dirs[k].entries) == |dirs[k].entries|
      {
        var slot := FirstFreeEntry(dirs[blockIdx].entries);
        if slot < |dirs[blockIdx].entries| {
          r := ClaimInBlock(env, blockIdx, slot);
          return;
        }
        blockIdx := blockIdx + 1;
      }
      if |blocks| >= MaxDirBlocks(g.pageSize) {
        return Err(DirectoryFull);
      }
      r := ClaimInNewBlock(env);
    }

    /** Two pages, after the pages `prefix` and before m more. */
    method TakeTwo(env: Env, ghost m: nat, ghost prefix: seq<nat>, ghost n: nat) returns (r: Result<(nat, nat)>)
      requires Shaped(g, State()) && 2 <= n && Capacity(g, meta.View(), n)
      modifies `disk, `mapped, `trace, meta
      ensures Shaped(g, State()) && old(meta.totalPages) <= meta.totalPages
      ensures
        var all := Taking(prefix, AllocRaws(g, old(State()), env, m + 2));
        match r
        case Err(e) => all.0 == State() && all.2 == Err(e)
        case Ok((p, q)) =>
          && InData(meta.totalPages, p) && InData(meta.totalPages, q)
          && Capacity(g, meta.View(), n - 2)
          && all == Taking(prefix + [p, q], AllocRaws(g, State(), env, m))
    {
      hide Shaped, AllocRaw, AllocRaws, Capacity;
      RawsStep(g, State(), env, m + 2, prefix);
      var p := AllocOneRaw(env, n);
      if p.Err? {
        return Err(p.error);
      }
      RawsStep(g, State(), env, m + 1, prefix + [p.value]);
      var q := AllocOneRaw(env, n - 1);
      if q.Err? {
        return Err(q.error);
      }
      assert prefix + [p.value] + [q.value] == prefix + [p.value, q.value];
      return Ok((p.value, q.value));
    }

    method ClaimInBlock(env: Env, blockIdx: nat, slot: nat) returns (r: Result<nat>)
      requires Shaped(g, State()) && Capacity(g, meta.View(), 2)
      requires |blocks| == |dirs| && blockIdx < |dirs|
      requires slot == FirstFreeEntry(dirs[blockIdx].entries) < |dirs[blockIdx].entries|
      modifies `disk, `mapped, `trace, `dur, `active, `blocks, `dirs, meta
      ensures Shaped(g, State()) && (State(), r) == AllocInBlock(g, old(State()), env, blockIdx)
    {
      hide Shaped, AllocRaw, AllocRaws, PagerSpec.Commit, CommitDir, Capacity, FirstFreeEntry, IdAt;
      ghost var was := State();
      TakingNothing(AllocRaws(g, was, env, 2));
      RawsKeepDirs(g, was, env, 2);
      var pages := TakeTwo(env, 0, [], 2);
      if pages.Err? {
        return Err(pages.error);
      }
      var (pa, pb) := pages.value;
      assert [] + [pa, pb] == [pa, pb];
      RawsStep(g, State(), env, 0, [pa, pb]);
      CommitFrame(g, State());
      var c := Commit();
      if c.Err? {
        return Err(c.error);
      }
      ShapedBounds(g, State());
      var checksum := PageChecksumAt(pa);
      var e := DirEntry(true, pa, pb, 0, 0, checksum);
      SetEntryShaped(g, State(), blockIdx, slot, e);
      dirs := SetEntry(dirs, blockIdx, slot, e);
      c := CommitDirBlock(blockIdx);
      r := if c.Err? then Err(c.error) else Ok(IdAt(g, blockIdx, slot));
    }

    /** A new directory block whose first slot holds e. */
    method PushBlock(dirA: nat, dirB: nat, e: DirEntry)
      requires Shaped(g, State()) && |blocks| < MaxDirBlocks(g.pageSize)
      requires InData(meta.totalPages, dirA) && InData(meta.totalPages, dirB) && EntryInside(meta.totalPages, e)
      modifies `blocks, `dirs
      ensures Shaped(g, State()) && |blocks| == |old(blocks)| + 1
      ensures State() == old(State()).(mem := AppendBlock(g, old(State()).mem, dirA, dirB, e))
    {
      hide Shaped;
      var page := NewDirPage(g.pageSize);
      AppendShaped(g, State(), dirA, dirB, e);
      blocks := blocks + [DirBlockRef(dirA, dirB, A)];
      dirs := dirs + [page.(entries := page.entries[0 := e])];
    }

    method ClaimInNewBlock(env: Env) returns (r: Result<nat>)
      requires Shaped(g, State()) && Capacity(g, meta.View(), 4)
      requires |dirs| == |blocks| < MaxDirBlocks(g.pageSize)
      modifies `disk, `mapped, `trace, `dur, `active, `blocks, `dirs, meta
      ensures Shaped(g, State()) && (State(), r) == AllocNewBlock(g, old(State()), env)
    {
      hide Shaped, AllocRaw, AllocRaws, AllocNewBlock, NewBlockFrom, Capacity;
      ghost var was := State();
      TakingNothing(AllocRaws(g, was, env, 4));
      NewBlockTail(g, was, env);
      var dirPages := TakeTwo(env, 2, [], 4);
      if dirPages.Err? {
        return Err(dirPages.error);
      }
      var (dirA, dirB) := dirPages.value;
      var dataPages := TakeTwo(env, 0, [] + [dirA, dirB], 2);
      if dataPages.Err? {
        return Err(dataPages.error);
      }
      var (dataA, dataB) := dataPages.value;
      assert [] + [dirA, dirB] + [dataA, dataB] == [dirA, dirB, dataA, dataB];
      RawsStep(g, State(), env, 0, [dirA, dirB, dataA, dataB]);
      r := CommitNewBlock(dirA, dirB, dataA, dataB);
    }

    /** The bitmap commit, the new block with its first entry, and the directory commit. */
    method CommitNewBlock(dirA: nat, dirB: nat, dataA: nat, dataB: nat) returns (r: Result<nat>)
      requires Shaped(g, State()) && |dirs| == |blocks| < MaxDirBlocks(g.pageSize)
      requires InData(meta.totalPages, dirA) && InData(meta.totalPages, dirB)
      requires InData(meta.totalPages, dataA) && InData(meta.totalPages, dataB)
      modifies `disk, `trace, `dur, `active, `blocks, `dirs, meta
      ensures Shaped(g, State())
      ensures (State(), r) == NewBlockFrom(g, old(State()), [dirA, dirB, dataA, dataB])
    {
      hide Shaped, PagerSpec.Commit, CommitDir, IdAt, AppendBlock;
      CommitFrame(g, State());
      var c := Commit();
      if c.Err? {
        return Err(c.error);
      }
      ShapedBounds(g, State());
      var blockIdx := |blocks|;
      var checksum := PageChecksumAt(dataA);
      PushBlock(dirA, dirB, DirEntry(true, dataA, dataB, 0, 0, checksum));
      c := CommitDirBlock(blockIdx);
      r := if c.Err? then Err(c.error) else Ok(IdAt(g, blockIdx, 0));
    }

    method FreeProtected(id: nat) returns (r: Result<()>)
      requires Valid()
      modifies this, meta
      ensures Valid() && (State(), Unit(r)) == Do(g, Begin(old(State())), OpFreeProtected(id))
      ensures old(Good(OpFreeProtected(id))) ==>
                intact && Correct(g, OpFreeProtected(id), Unit(r), old(contents), State(), contents)
    {
      hide Shaped, Shows, PagerSpec.FreeProtected, Allowed, Correct;
      ghost var op := OpFreeProtected(id);
      ghost var was, v, good := State(), contents, Good(op);
      BeginShaped(g, was);
      StartCall();
      r := DropEntry(id);
      EndCall(was, v, good, op, Unit(r));
    }

    method DropEntry(id: nat) returns (r: Result<()>)
      requires Shaped(g, State())
      modifies `disk, `trace, `dur, `active, `blocks, `dirs, meta
      ensures |old(State()).mem.blocks| == |old(State()).mem.dirs|
      ensures Shaped(g, State()) && (State(), r) == PagerSpec.FreeProtected(g, old(State()), id)
    {
      hide Shaped, PagerSpec.Commit, CommitDir, BlockOf, SlotOf, Unmark;
      ShapedBounds(g, State());
      var blockIdx, slot := BlockOf(g, id), SlotOf(g, id);
      if blockIdx >= |dirs| || slot >= |dirs[blockIdx].entries| {
        return Err(OutOfBounds);
      }
      var e := dirs[blockIdx].entries[slot];
      if !e.inUse {
        return Err(DoubleFree);
      }
      EntryInShape(g, State(), blockIdx, slot);
      SetEntryShaped(g, State(), blockIdx, slot, e.(inUse := false));
      dirs := SetEntry(dirs, blockIdx, slot, e.(inUse := false));
      DirFrame(g, State(), blockIdx);
      r := CommitDirBlock(blockIdx);
      if r.Err? {
        return;
      }
      ShapedBounds(g, State());
      UnmarkShaped(g, State(), e.pageA);
      var _ := meta.FreePage(e.pageA);
      ShapedBounds(g, State());
      UnmarkShaped(g, State(), e.pageB);
      var _ := meta.FreePage(e.pageB);
      r := Commit();
    }

    method GetProtectedPage(id: nat) returns (r: Result<Page>)
      requires Valid()
      ensures r == ReadProtected(g, State(), id)
      ensures intact ==> (r.Ok? <==> id in contents.shown && contents.mapped)
      ensures intact && r.Ok? ==> id in contents.pages && (contents.pages[id].Some? ==> r == Ok(contents.pages[id].value))
    {
      hide Shaped, Shows;
      if intact {
        ReadsContents(g, State(), contents, id);
      }
      var e := FindEntry(id);
      if e.None? {
        return Err(OutOfBounds);
      }
      var phys := if e.value.activeSlot == 0 then e.value.pageA else e.value.pageB;
      if !mapped {
        return Err(Unavailable);
      }
      return Ok(disk.mapped[phys]);
    }

    /** `dir_entry`: the entry of an id in use. */
    method FindEntry(id: nat) returns (r: Option<DirEntry>)
      requires Shaped(g, State())
      ensures r == if InUse(g, Memory(), id) then Some(EntryOf(g, Memory(), id)) else None
      ensures r.Some? ==>
                && r.value.activeSlot <= 1
                && r.value.pageA < |disk.mapped| && r.value.pageB < |disk.mapped|
    {
      hide Shaped, BlockOf, SlotOf;
      ShapedBounds(g, State());
      var blockIdx, slot := BlockOf(g, id), SlotOf(g, id);
      if blockIdx >= |dirs| || slot >= |dirs[blockIdx].entries| || !dirs[blockIdx].entries[slot].inUse {
        return None;
      }
      EntryInShape(g, State(), blockIdx, slot);
      return Some(dirs[blockIdx].entries[slot]);
    }

    method GetProtectedPageMut(id: nat) returns (r: Result<ProtectedPageWriter>)
      requires Valid()
      ensures r.Ok? <==> InUse(g, Memory(), id) && mapped
      ensures r.Err? ==> r.error == if InUse(g, Memory(), id) then Unavailable else OutOfBounds
      ensures r.Ok? ==> fresh(r.value) && r.value.pager == this && r.value.id == id && r.value.Valid()
    {
      hide Shaped, Shows;
      var e := FindEntry(id);
      if e.None? {
        return Err(OutOfBounds);
      }
      var inactiveSlot: byte := 1 - e.value.activeSlot;
      var inactivePhys := if inactiveSlot == 0 then e.value.pageA else e.value.pageB;
      if !mapped {
        return Err(Unavailable);
      }
      var writer := new ProtectedPageWriter(this, id, inactivePhys, inactiveSlot);
      return Ok(writer);
    }

    /** `commit_protected_write`, called by the writer that staged the page. */
    method CommitProtectedWrite(id: nat, inactivePhys: nat, inactiveSlot: byte) returns (r: Result<()>)
      requires Valid() && mapped && InUse(g, Memory(), id)
      requires inactivePhys == InactivePhys(EntryOf(g, Memory(), id))
      requires inactiveSlot + EntryOf(g, Memory(), id).activeSlot == 1
      modifies this
      ensures |old(Memory()).blocks| == |old(Memory()).dirs|
      ensures Valid() && (State(), r) == CommitWrite(g, Begin(old(State())), id)
      ensures old(intact && EntryOf(g, Memory(), id).generation + 1 < U64_LIMIT) ==>
                && r.Ok? && intact
                && Correct(g, OpWriteProtected(id, old(MappedPage(disk, inactivePhys))), Unit(r),
                           old(contents), State(), contents)
    {
      hide Shaped, Shows, TraceOk, CommitDir, Flush, BlockOf, SlotOf, AbsStep, Sized;
      ghost var was, v, good := State(), contents, intact && EntryOf(g, Memory(), id).generation + 1 < U64_LIMIT;
      BeginShaped(g, was);
      ShapedBounds(g, was);
      StartCall();
      var blockIdx, slot := BlockOf(g, id), SlotOf(g, id);
      var e := dirs[blockIdx].entries[slot];
      EntryInShape(g, State(), blockIdx, slot);
      ShapedSized(g, was);
      FlushSizes(g, disk, inactivePhys);
      FlushPage(inactivePhys, dur);
      KeepsShape(g, was, State());
      var checksum := g.crc(disk.mapped[inactivePhys]);
      var e' := e.(activeSlot := inactiveSlot, generation := e.generation + 1, checksum := checksum);
      SetEntryShaped(g, State(), blockIdx, slot, e');
      dirs := SetEntry(dirs, blockIdx, slot, e');
      CommitWriteSteps(g, Begin(was), id);
      r := CommitDirBlock(blockIdx);
      intact := good;
      if good {
        BeginShows(g, was, v);
        contents := CommitWriteShows(g, Begin(was), id, v);
      }
    }

    method AllocProtectedBulk(env: Env, count: nat) returns (r: Result<seq<nat>>)
      requires Valid() && RoomForEach(g, State(), env, count)
      modifies this, meta
      ensures |old(Memory()).blocks| == |old(Memory()).dirs| && old(Memory()).meta.total > 0
      ensures Valid() && (State(), r) == ProtectedBulk.AllocProtectedBulk(g, old(State()), env, count)
      ensures old(intact && meta.generation + 2 * count < U64_LIMIT) ==>
                && intact && (r.Ok? <==> Obtainable(g, old(State()), env, count))
                && (r.Ok? ==> |r.value| == count && AddedAll(old(contents), r.value, contents))
                && (r.Err? ==>
                      && contents.shown == old(contents).shown
                      && (!Strands(g, old(State()), env, count) ==> Lands(old(contents), {}, contents.pages)))
    {
      hide Shaped, Shows, PagerSpec.AllocProtected, RoomForEach, FreeAnyway, Correct, AllocEach, AddedAll, Needed, Capacity,
           Obtainable, Strands, Lands, Obtained, Exact;
      ghost var was, v, good := State(), contents, intact && meta.generation + 2 * count < U64_LIMIT;
      BeginShaped(g, was);
      ShapedTotal(g, was);
      r := AllocInTurn(env, count);
      intact := intact || good;
      if good {
        ghost var ids;
        contents, ids := AllocProtectedBulkExact(g, was, env, count, v);
      }
    }

    /** The single calls, and the rollback when one of them fails. */
    method AllocInTurn(env: Env, count: nat) returns (r: Result<seq<nat>>)
      requires Valid() && RoomForEach(g, State(), env, count)
      modifies this, meta
      ensures |old(Memory()).blocks| == |old(Memory()).dirs|
      ensures Valid() && (State(), r) == ProtectedBulk.AllocProtectedBulk(g, old(State()), env, count)
    {
      hide Shaped, Shows, PagerSpec.AllocProtected, RoomForEach, FreeAnyway, Correct, AllocEach, Needed, Capacity;
      ghost var was := State();
      BeginShaped(g, was);
      var ids, i := [], 0;
      TakingNothing(AllocEach(g, was, env, count));
      while i < count
        invariant i <= count && Valid() && RoomForEach(g, State(), env, count - i)
        invariant AllocEach(g, was, env, count) == EachFrom(g, ids, State(), env, count - i)
      {
        BeginShaped(g, State());
        RoomUnfolds(g, State(), env, count - i);
        EachStep(g, ids, State(), env, count - i);
        var one := AllocProtected(env);
        if one.Err? {
          FreeRollback(ids);
          return Err(one.error);
        }
        ids := ids + [one.value];
        i := i + 1;
      }
      BeginShaped(g, State());
      EachStep(g, ids, State(), env, 0);
      return Ok(ids);
    }

    /** The best-effort rollback: what a single free answers is ignored. */
    method FreeRollback(ids: seq<nat>)
      requires Valid()
      modifies this, meta
      ensures |old(Memory()).blocks| == |old(Memory()).dirs|
      ensures Valid() && State() == FreeAnyway(g, old(State()), ids)
    {
      hide Shaped, Shows, PagerSpec.FreeProtected, Correct;
      BeginShaped(g, State());
      var i := 0;
      assert ids[0..] == ids;
      while i < |ids|
        invariant i <= |ids| && Valid() && |blocks| == |dirs|
        invariant FreeAnyway(g, old(State()), ids) == FreeAnyway(g, State(), ids[i..])
      {
        assert ids[i..][1..] == ids[i + 1..];
        var _ := FreeProtected(ids[i]);
        BeginShaped(g, State());
        i := i + 1;
      }
    }

    method CheckEntriesOf(ids: seq<nat>) returns (r: Result<()>)
      requires Shaped(g, State())
      ensures r == CheckEntries(g, Memory(), ids)
    {
      hide Shaped, BlockOf, SlotOf;
      var i := 0;
      assert ids[0..] == ids;
      while i < |ids|
        invariant i <= |ids| && CheckEntries(g, Memory(), ids) == CheckEntries(g, Memory(), ids[i..])
      {
        assert ids[i..][1..] == ids[i + 1..];
        var blockIdx, slot := BlockOf(g, ids[i]), SlotOf(g, ids[i]);
        if blockIdx >= |dirs| || slot >= |dirs[blockIdx].entries| {
          return Err(OutOfBounds);
        }
        if !dirs[blockIdx].entries[slot].inUse {
          return Err(DoubleFree);
        }
        i := i + 1;
      }
      return Ok(());
    }

    method FreeProtectedBulk(ids: seq<nat>) returns (r: Result<()>)
      requires Valid()
      modifies this, meta
      ensures |old(Memory()).blocks| == |old(Memory()).dirs|
      ensures Valid() && (State(), r) == ProtectedBulk.FreeProtectedBulk(g, old(State()), ids)
      ensures old(intact && mapped && meta.generation + |ids| < U64_LIMIT) ==>
                && (r.Ok? <==> Distinct(ids) && forall id :: id in ids ==> id in old(contents).shown)
                && intact && (if r.Ok? then FreedAll(old(contents), ids, contents) else contents == old(contents))
    {
      hide Shaped, Shows, PagerSpec.FreeProtected, Sort, AdjacentEqual, CheckEntries, Correct, Distinct, ToSet, BackingOf,
           FreedAll, AllocatedSet;
      ghost var was, v, good := State(), contents, intact && mapped && meta.generation + |ids| < U64_LIMIT;
      BeginShaped(g, was);
      ghost var w := v;
      if good {
        ShowsMapped(g, was, v);
        w := FreeProtectedBulkExact(g, was, ids, v);
      }
      if |ids| == 0 {
        r := Ok(());
      } else {
        var sorted := Sort(ids, IdLeq);
        var duplicate := AnyNeighboursEqual(sorted);
        if duplicate {
          return Err(DoubleFree);
        }
        r := CheckEntriesOf(sorted);
        if r.Err? {
          return;
        }
        r := FreeInTurn(sorted);
      }
      if good {
        intact, contents := true, w;
      }
    }

    method FreeInTurn(ids: seq<nat>) returns (r: Result<()>)
      requires Valid()
      modifies this, meta
      ensures |old(Memory()).blocks| == |old(Memory()).dirs|
      ensures Valid() && (State(), r) == FreeEach(g, old(State()), ids)
    {
      hide Shaped, Shows, PagerSpec.FreeProtected, Correct;
      BeginShaped(g, State());
      var i := 0;
      assert ids[0..] == ids;
      while i < |ids|
        invariant i <= |ids| && Valid() && |blocks| == |dirs|
        invariant FreeEach(g, old(State()), ids) == FreeEach(g, State(), ids[i..])
      {
        assert ids[i..][1..] == ids[i + 1..];
        r := FreeProtected(ids[i]);
        BeginShaped(g, State());
        if r.Err? {
          return;
        }
        i := i + 1;
      }
      return Ok(());
    }
  }

  /** An in-progress write to a protected page (src/protected.rs). While it exists nothing else
      uses the pager, which its caller keeps to by holding it exclusively. */
  class ProtectedPageWriter {
    const pager: Pager
    const id: nat
    const inactivePhys: nat
    const inactiveSlot: byte

    ghost predicate Valid()
      reads this, pager, pager.meta
    {
      && pager.Valid() && pager.mapped && InUse(pager.g, pager.Memory(), id)
      && inactivePhys == InactivePhys(EntryOf(pager.g, pager.Memory(), id))
      && inactiveSlot + EntryOf(pager.g, pager.Memory(), id).activeSlot == 1
    }

    constructor (pager: Pager, id: nat, inactivePhys: nat, inactiveSlot: byte)
      ensures this.pager == pager && this.id == id
      ensures this.inactivePhys == inactivePhys && this.inactiveSlot == inactiveSlot
    {
      this.pager, this.id, this.inactivePhys, this.inactiveSlot := pager, id, inactivePhys, inactiveSlot;
    }

    /** A store through `page_mut`: the active copy, which readers see, is untouched. */
    method Write(page: Page)
      requires Valid() && |page| == pager.g.pageSize
      modifies pager
      ensures Valid()
      ensures |old(pager.Memory()).blocks| == |old(pager.Memory()).dirs|
      ensures (pager.State(), Unit(Ok(()))) == Do(pager.g, Begin(old(pager.State())), OpStage(id, page))
      ensures MappedPage(pager.disk, inactivePhys) == page
      ensures old(pager.Good(OpStage(id, page))) ==> pager.intact && pager.contents == old(pager.contents)
    {
      hide Shaped, Shows, Allowed, EntryOf, Store, Sized;
      ghost var g, op := pager.g, OpStage(id, page);
      ghost var was, v, good := pager.State(), pager.contents, pager.Good(op);
      BeginShaped(g, was);
      WriterInside(g, was, id);
      pager.StartCall();
      pager.StorePage(inactivePhys, page, pager.dur);
      ShapedSized(g, was);
      StoreSizes(g, was.disk, inactivePhys, page);
      StoredPage(was.disk, inactivePhys, page);
      KeepsShape(g, was, pager.State());
      pager.EndCall(was, v, good, op, Unit(Ok(())));
    }

    /** `commit`: what the inactive copy holds becomes the page. */
    method Commit() returns (r: Result<()>)
      requires Valid()
      modifies pager
      ensures |old(pager.Memory()).blocks| == |old(pager.Memory()).dirs|
      ensures pager.Valid() && (pager.State(), r) == CommitWrite(pager.g, Begin(old(pager.State())), id)
      ensures old(pager.intact && EntryOf(pager.g, pager.Memory(), id).generation + 1 < U64_LIMIT) ==>
                && r.Ok? && pager.intact
                && Correct(pager.g, OpWriteProtected(id, old(MappedPage(pager.disk, inactivePhys))), Unit(r),
                           old(pager.contents), pager.State(), pager.contents)
    {
      hide Shaped, Shows, EntryOf, CommitWrite, Correct;
      r := pager.CommitProtectedWrite(id, inactivePhys, inactiveSlot);
    }
  }
}
