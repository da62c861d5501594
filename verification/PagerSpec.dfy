/** The pager's operations as functions on its whole state: memory, disk and the
    intermediate disks a crash could catch. The methods of class Pager compute these. */
module PagerSpec {
  import opened Bytes
  import opened Results
  import opened Metadata
  import opened Layout
  import opened Disks
  import opened Recovery

  /** What the operating system does when the file is to grow: it extends and maps it, or `set_len`
      refuses, and the file as it was can be mapped again or not, or `map_mut` refuses, and the
      file can be cut back or not. */
  datatype Answer = Grown | Refused(remaps: bool) | NotMapped(shrinks: bool)

  /** The answer to each growth of one call, by the page count it asks for. A growth that is
      granted doubles the count and one that is not is the last of its call, so no two growths of
      a call ask for the same. */
  type Env = nat -> Answer

  /** One disk a crash could catch, with the states the old and the new page 0 describe. */
  datatype Point = Point(disk: Disk, cur: Mem, next: Mem)

  /** `dur` is the state last made durable, `trace` the disks of the call in progress. */
  datatype Sys = Sys(mem: Mem, dur: Mem, mapped: bool, disk: Disk, trace: seq<Point>)

  function WithMeta(s: Sys, meta: Meta): Sys {
    s.(mem := s.mem.(meta := meta))
  }

  /** One store, flush or resize. */
  function Step(s: Sys, d: Disk): Sys {
    s.(disk := d, trace := s.trace + [Point(d, s.dur, s.dur)])
  }

  function MappedPage(d: Disk, i: nat): Page {
    if i < |d.mapped| then d.mapped[i] else []
  }

  // ── Commits ────────────────────────────────────────────────────────────────

  /** Store and flush one page, then store and flush a page 0 that describes `next`. */
  function Publish(s: Sys, i: nat, page: Page, page0: Page, next: Mem): Sys {
    var d1 := Store(s.disk, i, page);
    var d2 := Flush(d1, i);
    var d3 := Store(d2, 0, page0);
    var d4 := Flush(d3, 0);
    s.(dur := next, disk := d4,
       trace := s.trace + [Point(d1, s.dur, s.dur), Point(d2, s.dur, s.dur),
                           Point(d3, s.dur, next), Point(d4, next, next)])
  }

  /** Selector A goes with even generations. */
  predicate InStep(m: Mem) {
    m.active.A? <==> m.meta.generation % 2 == 0
  }

  function NextGeneration(m: Meta): Meta {
    m.(generation := m.generation + 1)
  }

  /** `commit`: the bitmap goes to the inactive metadata page, then page 0 selects it. The
      directory pages on disk stay as they are. */
  function Commit(g: Geometry, s: Sys): (Sys, Result<()>) {
    var meta := NextGeneration(s.mem.meta);
    if !s.mapped then (WithMeta(s, meta), Err(Unavailable))
    else
      var target := s.mem.active.Other();
      var buf := MetaBytes(g, meta);
      var next := Mem(meta, target, s.mem.blocks, s.dur.dirs);
      var page0 := Page0Bytes(g, Super(g, target, g.crc(buf)), s.mem.blocks);
      (Publish(s, target.PageId(), buf, page0, next).(mem := s.mem.(meta := meta, active := target)), Ok(()))
  }

  function FlipBlock(blocks: seq<DirBlockRef>, b: nat): seq<DirBlockRef>
    requires b < |blocks|
  {
    blocks[b := blocks[b].(active := blocks[b].active.Other())]
  }

  /** The directory pages on disk once block b has been written. */
  function Landed(s: Sys, b: nat): seq<DirPage>
    requires b < |s.mem.dirs|
  {
    if b < |s.dur.dirs| then s.dur.dirs[b := s.mem.dirs[b]] else s.dur.dirs + [s.mem.dirs[b]]
  }

  /** `commit_dir_block`: one directory page goes to its inactive copy, then page 0 selects it. */
  function CommitDir(g: Geometry, s: Sys, b: nat): (Sys, Result<()>)
    requires b < |s.mem.blocks| && b < |s.mem.dirs|
  {
    if !s.mapped then (s, Err(Unavailable))
    else
      var r := s.mem.blocks[b];
      var buf := DirBytes(g, s.mem.dirs[b]);
      var blocks := FlipBlock(s.mem.blocks, b);
      var stored := Flush(Store(s.disk, r.Inactive(), buf), r.Inactive());
      var checksum := g.crc(MappedPage(stored, s.mem.active.PageId()));
      var page0 := Page0Bytes(g, Super(g, s.mem.active, checksum), blocks);
      var next := Mem(s.dur.meta, s.mem.active, blocks, Landed(s, b));
      (Publish(s, r.Inactive(), buf, page0, next).(mem := s.mem.(blocks := blocks)), Ok(()))
  }

  // ── Regular pages ──────────────────────────────────────────────────────────

  /** `grow`: double the file and remap; both failing branches. */
  function Grow(g: Geometry, s: Sys, env: Env): (Sys, Result<()>) {
    var oldTotal, newTotal := s.mem.meta.total, s.mem.meta.total * 2;
    var s1 := Step(s, SetLen(g, s.disk, newTotal));
    match env(newTotal)
    case Refused(remaps) => (s.(mapped := remaps), Err(Io))
    case Grown => (WithMeta(s1, GrowTo(s.mem.meta, newTotal)).(mapped := true), Ok(()))
    case NotMapped(shrinks) =>
      ((if shrinks then Step(s1, SetLen(g, s1.disk, oldTotal)) else s1).(mapped := false), Err(Io))
  }

  /** `alloc_one_raw`: take the smallest free page, growing once when there is none. */
  function AllocRaw(g: Geometry, s: Sys, env: Env): (Sys, Result<nat>) {
    match FreeSlot(s.mem.meta)
    case Some(id) => (WithMeta(s, Mark(s.mem.meta, id)), Ok(id))
    case None =>
      var (s1, r) := Grow(g, s, env);
      match r
      case Err(e) => (s1, Err(e))
      case Ok(_) =>
        match FreeSlot(s1.mem.meta)
        case Some(id) => (WithMeta(s1, Mark(s1.mem.meta, id)), Ok(id))
        case None => (s1, Err(Io)) // the source's `expect`; see GrowMakesRoom
  }

  /** n raw allocations, stopping at the first that fails: the pages taken and the outcome. */
  function AllocRaws(g: Geometry, s: Sys, env: Env, n: nat): (r: (Sys, seq<nat>, Result<()>))
    ensures r.2.Ok? ==> |r.1| == n
    decreases n
  {
    if n == 0 then (s, [], Ok(()))
    else
      var (s1, r) := AllocRaw(g, s, env);
      match r
      case Err(e) => (s1, [], Err(e))
      case Ok(id) =>
        var (s2, ids, r2) := AllocRaws(g, s1, env, n - 1);
        (s2, [id] + ids, r2)
  }

  function Alloc(g: Geometry, s: Sys, env: Env): (Sys, Result<nat>) {
    var (s1, r) := AllocRaw(g, s, env);
    match r
    case Err(e) => (s1, Err(e))
    case Ok(id) =>
      var (s2, c) := Commit(g, s1);
      if c.Ok? then (s2, Ok(id)) else (s2, Err(c.error))
  }

  function Free(g: Geometry, s: Sys, id: nat): (Sys, Result<()>) {
    if id < FIRST_DATA_PAGE then (s, Err(ReservedPage))
    else if !Allocated(s.mem.meta, id) then
      (s, Err(if id >= s.mem.meta.total then OutOfBounds else DoubleFree))
    else Commit(g, WithMeta(s, Unmark(s.mem.meta, id)))
  }

  /** Store through `get_page_mut`. */
  function WriteRegular(s: Sys, id: nat, page: Page): (Sys, Result<()>) {
    if id < FIRST_DATA_PAGE then (s, Err(ReservedPage))
    else if id >= s.mem.meta.total then (s, Err(OutOfBounds))
    else if !s.mapped then (s, Err(Unavailable))
    else (Step(s, Store(s.disk, id, page)), Ok(()))
  }

  /** `get_page`. */
  function ReadRegular(s: Sys, id: nat): Result<Page> {
    if id < FIRST_DATA_PAGE then Err(ReservedPage)
    else if id >= s.mem.meta.total then Err(OutOfBounds)
    else if !s.mapped then Err(Unavailable)
    else Ok(MappedPage(s.disk, id))
  }

  // ── Protected pages ────────────────────────────────────────────────────────

  /** Entries per directory page. */
  function Epp(g: Geometry): (n: nat)
    ensures n >= 33
  {
    DirEntriesPerPage(g.pageSize)
  }

  /** The id of slot `slot` of block `b`. */
  function IdAt(g: Geometry, b: nat, slot: nat): nat {
    b * Epp(g) + slot
  }

  function Quotient(n: nat, d: nat): nat
    requires d > 0
  {
    n / d
  }

  function Remainder(n: nat, d: nat): nat
    requires d > 0
  {
    n % d
  }

  function BlockOf(g: Geometry, id: nat): nat {
    Quotient(id, Epp(g))
  }

  function SlotOf(g: Geometry, id: nat): nat {
    Remainder(id, Epp(g))
  }

  predicate HasEntry(m: Mem, b: nat, slot: nat) {
    b < |m.dirs| && slot < |m.dirs[b].entries|
  }

  function EntryAt(m: Mem, b: nat, slot: nat): DirEntry {
    if HasEntry(m, b, slot) then m.dirs[b].entries[slot] else EMPTY_ENTRY
  }

  /** The entry of a protected id; the empty entry when the id is out of range. */
  function EntryOf(g: Geometry, m: Mem, id: nat): DirEntry {
    EntryAt(m, BlockOf(g, id), SlotOf(g, id))
  }

  predicate InUse(g: Geometry, m: Mem, id: nat) {
    EntryOf(g, m, id).inUse
  }

  function ActivePhys(e: DirEntry): nat {
    if e.activeSlot == 0 then e.pageA else e.pageB
  }

  /** The copy `1 - active_slot` names. */
  function InactivePhys(e: DirEntry): nat {
    if e.activeSlot == 1 then e.pageA else e.pageB
  }

  function FirstFreeEntry(es: seq<DirEntry>): (i: nat)
    ensures i <= |es|
    ensures forall k :: 0 <= k < i ==> es[k].inUse
    ensures i < |es| ==> !es[i].inUse
  {
    if es == [] || !es[0].inUse then 0 else 1 + FirstFreeEntry(es[1..])
  }

  /** The first block with a free slot, or the number of blocks. */
  function FirstOpenBlock(dirs: seq<DirPage>): (b: nat)
    ensures b <= |dirs|
    ensures forall k :: 0 <= k < b ==> FirstFreeEntry(dirs[k].entries) == |dirs[k].entries|
    ensures b < |dirs| ==> FirstFreeEntry(dirs[b].entries) < |dirs[b].entries|
  {
    if dirs == [] || FirstFreeEntry(dirs[0].entries) < |dirs[0].entries| then 0
    else 1 + FirstOpenBlock(dirs[1..])
  }

  function SetEntry(dirs: seq<DirPage>, b: nat, slot: nat, e: DirEntry): seq<DirPage>
    requires b < |dirs| && slot < |dirs[b].entries|
  {
    dirs[b := dirs[b].(entries := dirs[b].entries[slot := e])]
  }

  /** The state with one directory entry replaced. */
  function Rewritten(m: Mem, b: nat, slot: nat, e: DirEntry): (r: Mem)
    requires HasEntry(m, b, slot)
    ensures r.blocks == m.blocks && |r.dirs| == |m.dirs| && r.meta == m.meta && r.active == m.active
  {
    m.(dirs := SetEntry(m.dirs, b, slot, e))
  }

  function NewEntry(g: Geometry, d: Disk, pa: nat, pb: nat): DirEntry {
    DirEntry(true, pa, pb, 0, 0, g.crc(MappedPage(d, pa)))
  }

  /** A new directory block whose first slot is taken. */
  function AppendBlock(g: Geometry, m: Mem, a: nat, b: nat, e: DirEntry): (r: Mem)
    ensures |r.blocks| == |m.blocks| + 1 && |r.dirs| == |m.dirs| + 1
  {
    var blank := NewDirPage(g.pageSize);
    m.(blocks := m.blocks + [DirBlockRef(a, b, A)],
       dirs := m.dirs + [blank.(entries := blank.entries[0 := e])])
  }

  function AllocProtected(g: Geometry, s: Sys, env: Env): (r: (Sys, Result<nat>))
    requires |s.mem.blocks| == |s.mem.dirs|
    ensures |r.0.mem.blocks| == |r.0.mem.dirs|
  {
    var b := FirstOpenBlock(s.mem.dirs);
    if b < |s.mem.dirs| then AllocInBlock(g, s, env, b)
    else if |s.mem.blocks| >= MaxDirBlocks(g.pageSize) then (s, Err(DirectoryFull))
    else AllocNewBlock(g, s, env)
  }

  /** Two backing pages, a bitmap commit, then the directory commit that uses them. */
  function AllocInBlock(g: Geometry, s: Sys, env: Env, b: nat): (r: (Sys, Result<nat>))
    requires |s.mem.blocks| == |s.mem.dirs| && b < |s.mem.dirs|
    requires FirstFreeEntry(s.mem.dirs[b].entries) < |s.mem.dirs[b].entries|
    ensures |r.0.mem.blocks| == |r.0.mem.dirs|
  {
    var slot := FirstFreeEntry(s.mem.dirs[b].entries);
    RawsKeepDirs(g, s, env, 2);
    var (s1, ids, r) := AllocRaws(g, s, env, 2);
    if r.Err? then (s1, Err(r.error))
    else
      var (s2, c) := Commit(g, s1);
      if c.Err? then (s2, Err(c.error))
      else
        var s3 := s2.(mem := Rewritten(s2.mem, b, slot, NewEntry(g, s2.disk, ids[0], ids[1])));
        var (s4, c4) := CommitDir(g, s3, b);
        match c4
        case Err(e) => (s4, Err(e))
        case Ok(_) => (s4, Ok(IdAt(g, b, slot)))
  }

  /** Four pages in one bitmap commit, then the directory commit that adds the block. */
  function AllocNewBlock(g: Geometry, s: Sys, env: Env): (r: (Sys, Result<nat>))
    requires |s.mem.blocks| == |s.mem.dirs|
    ensures |r.0.mem.blocks| == |r.0.mem.dirs|
  {
    hide AllocRaws, NewEntry, Epp, AppendBlock, Page0Bytes, MetaBytes, DirBytes, Store, Flush;
    RawsKeepDirs(g, s, env, 4);
    var (s1, ids, r) := AllocRaws(g, s, env, 4);
    if r.Err? then (s1, Err(r.error))
    else
      var (s2, c) := Commit(g, s1);
      if c.Err? then (s2, Err(c.error))
      else
        var s3 := s2.(mem := AppendBlock(g, s2.mem, ids[0], ids[1], NewEntry(g, s2.disk, ids[2], ids[3])));
        var (s4, c4) := CommitDir(g, s3, |s.mem.blocks|);
        match c4
        case Err(e) => (s4, Err(e))
        case Ok(_) => (s4, Ok(IdAt(g, |s.mem.blocks|, 0)))
  }

  /** The first of several raw allocations, then the rest. */
  lemma RawsUnfold(g: Geometry, s: Sys, env: Env, n: nat)
    ensures n == 0 ==> AllocRaws(g, s, env, n).0 == s
    ensures n > 0 && AllocRaw(g, s, env).1.Err? ==> AllocRaws(g, s, env, n).0 == AllocRaw(g, s, env).0
    ensures n > 0 && AllocRaw(g, s, env).1.Ok? ==>
              AllocRaws(g, s, env, n).0 == AllocRaws(g, AllocRaw(g, s, env).0, env, n - 1).0
  {
    hide AllocRaw;
  }

  lemma RawKeepsDirs(g: Geometry, s: Sys, env: Env)
    ensures AllocRaw(g, s, env).0.mem == s.mem.(meta := AllocRaw(g, s, env).0.mem.meta)
    ensures AllocRaw(g, s, env).0.dur == s.dur
  {
  }

  /** Raw allocations touch the bitmap only. */
  lemma {:induction false} RawsKeepDirs(g: Geometry, s: Sys, env: Env, n: nat)
    ensures AllocRaws(g, s, env, n).0.mem == s.mem.(meta := AllocRaws(g, s, env, n).0.mem.meta)
    ensures AllocRaws(g, s, env, n).0.dur == s.dur
    decreases n
  {
    hide AllocRaw;
    if n > 0 {
      var s1 := AllocRaw(g, s, env).0;
      RawKeepsDirs(g, s, env);
      RawsKeepDirs(g, s1, env, n - 1);
    }
  }

  /** Directory commit first, then the bitmap commit that releases the backing pages. */
  function FreeProtected(g: Geometry, s: Sys, id: nat): (r: (Sys, Result<()>))
    requires |s.mem.blocks| == |s.mem.dirs|
    ensures |r.0.mem.blocks| == |r.0.mem.dirs|
  {
    var b, slot := BlockOf(g, id), SlotOf(g, id);
    if !HasEntry(s.mem, b, slot) then (s, Err(OutOfBounds))
    else
      var e := EntryAt(s.mem, b, slot);
      if !e.inUse then (s, Err(DoubleFree))
      else
        var (s1, c) := CommitDir(g, s.(mem := Rewritten(s.mem, b, slot, e.(inUse := false))), b);
        if c.Err? then (s1, c)
        else Commit(g, WithMeta(s1, Unmark(Unmark(s1.mem.meta, e.pageA), e.pageB)))
  }

  /** Store into the inactive copy through a `ProtectedPageWriter`. */
  function StageWrite(g: Geometry, s: Sys, id: nat, page: Page): (Sys, Result<()>) {
    if !InUse(g, s.mem, id) then (s, Err(OutOfBounds))
    else if !s.mapped then (s, Err(Unavailable))
    else (Step(s, Store(s.disk, InactivePhys(EntryOf(g, s.mem, id)), page)), Ok(()))
  }

  /** `get_protected_page`: the active copy. */
  function ReadProtected(g: Geometry, s: Sys, id: nat): Result<Page> {
    if !InUse(g, s.mem, id) then Err(OutOfBounds)
    else if !s.mapped then Err(Unavailable)
    else Ok(MappedPage(s.disk, ActivePhys(EntryOf(g, s.mem, id))))
  }

  /** The entry after its inactive copy has been flushed and made active. */
  function Flipped(e: DirEntry, checksum: u32): DirEntry {
    e.(activeSlot := if e.activeSlot == 1 then 0 else 1,
       generation := e.generation + 1, checksum := checksum)
  }

  /** `ProtectedPageWriter::commit`: flush the inactive copy, then make it the active one. */
  function CommitWrite(g: Geometry, s: Sys, id: nat): (Sys, Result<()>)
    requires |s.mem.blocks| == |s.mem.dirs|
  {
    if !InUse(g, s.mem, id) then (s, Err(OutOfBounds))
    else if !s.mapped then (s, Err(Unavailable))
    else
      var b, slot := BlockOf(g, id), SlotOf(g, id);
      var e := EntryAt(s.mem, b, slot);
      var s1 := Step(s, Flush(s.disk, InactivePhys(e)));
      var e' := Flipped(e, g.crc(MappedPage(s1.disk, InactivePhys(e))));
      CommitDir(g, s1.(mem := Rewritten(s1.mem, b, slot, e')), b)
  }

  /** `get_mut`, a full page of writes, `commit`. */
  function WriteProtected(g: Geometry, s: Sys, id: nat, page: Page): (Sys, Result<()>)
    requires |s.mem.blocks| == |s.mem.dirs|
  {
    var (s1, r) := StageWrite(g, s, id, page);
    if r.Err? then (s1, r) else CommitWrite(g, s1, id)
  }
}
