/** The functions of PagerSpec taken one source statement at a time, as the methods of class
    Pager execute them. */
module PagerSteps {
  import opened Bytes
  import opened Results
  import opened Metadata
  import opened Disks
  import opened Recovery
  import opened PagerSpec
  import opened Safety
  import opened RawAllocation
  import opened Operations
  import opened Runs
  import opened ProtectedBulk
  import opened Shape

  lemma FourPoints(t: seq<Point>, p: Point, q: Point, r: Point, s: Point)
    ensures t + [p] + [q] + [r] + [s] == t + [p, q, r, s]
  {
  }

  lemma BeginShaped(g: Geometry, s: Sys)
    requires Shaped(g, s)
    ensures Shaped(g, Begin(s)) && |s.mem.blocks| == |s.mem.dirs|
  {
  }

  /** A pager over a file that holds contents a, straight after creating or opening it. */
  lemma BootGood(g: Geometry, m: Mem, file: seq<Page>, a: Abs)
    requires Ready(g, Boot(m, file), a)
    ensures Shaped(g, Boot(m, file)) && Shows(g, Boot(m, file), Reopened(a))
  {
    hide Ready, Shows, Shaped;
    ReadySteady(g, Boot(m, file), a);
    BootShows(g, Boot(m, file), a);
    SteadyShaped(g, Boot(m, file), a);
  }

  lemma MarkTotal(m: Meta, id: nat)
    requires id / 8 < |m.bitmap|
    ensures Mark(m, id).total == m.total
  {
  }

  lemma GrowDisk(g: Geometry, s: Sys, env: Env)
    ensures Grow(g, s, env).1.Ok? ==>
              var d := Grow(g, s, env).0.disk;
              |d.mapped| == |d.durable| == 2 * s.mem.meta.total && (Sized(g, s.disk) ==> Sized(g, d))
  {
    hide GrowTo, Sized;
    if Sized(g, s.disk) {
      ResizeSized(g, s.disk, 2 * s.mem.meta.total);
    }
  }

  /** Pages taken before a sequence of raw allocations. */
  function Taking(ids: seq<nat>, r: (Sys, seq<nat>, Result<()>)): (Sys, seq<nat>, Result<()>) {
    (r.0, ids + r.1, r.2)
  }

  lemma TakingNothing(r: (Sys, seq<nat>, Result<()>))
    ensures Taking([], r) == r
  {
    assert [] + r.1 == r.1;
  }

  lemma RawsStep(g: Geometry, s: Sys, env: Env, n: nat, ids: seq<nat>)
    ensures
      Taking(ids, AllocRaws(g, s, env, n)) ==
      if n == 0 then (s, ids, Ok(()))
      else
        var (s1, r) := AllocRaw(g, s, env);
        match r
        case Err(e) => (s1, ids, Err(e))
        case Ok(id) => Taking(ids + [id], AllocRaws(g, s1, env, n - 1))
  {
    hide AllocRaw;
    assert ids + [] == ids;
    if n > 0 && AllocRaw(g, s, env).1.Ok? {
      var (s1, r) := AllocRaw(g, s, env);
      var rest := AllocRaws(g, s1, env, n - 1).1;
      assert ids + ([r.value] + rest) == ids + [r.value] + rest;
    }
  }

  /** The rest of `alloc_protected` once the four pages of a new block have been taken. */
  function NewBlockFrom(g: Geometry, s1: Sys, ids: seq<nat>): (r: (Sys, Result<nat>))
    requires |s1.mem.blocks| == |s1.mem.dirs| && |ids| == 4
  {
    var (s2, c) := Commit(g, s1);
    if c.Err? then (s2, Err(c.error))
    else
      var s3 := s2.(mem := AppendBlock(g, s2.mem, ids[0], ids[1], NewEntry(g, s2.disk, ids[2], ids[3])));
      var (s4, c4) := CommitDir(g, s3, |s1.mem.blocks|);
      match c4
      case Err(e) => (s4, Err(e))
      case Ok(_) => (s4, Ok(IdAt(g, |s1.mem.blocks|, 0)))
  }

  lemma NewBlockTail(g: Geometry, s: Sys, env: Env)
    requires |s.mem.blocks| == |s.mem.dirs|
    ensures
      var (s1, ids, r) := AllocRaws(g, s, env, 4);
      && s1.mem.blocks == s.mem.blocks && s1.mem.dirs == s.mem.dirs
      && AllocNewBlock(g, s, env) == if r.Err? then (s1, Err(r.error)) else NewBlockFrom(g, s1, ids)
  {
    hide AllocRaws, Commit, CommitDir, AppendBlock, NewEntry, IdAt;
    RawsKeepDirs(g, s, env, 4);
  }

  lemma DirFrame(g: Geometry, s: Sys, b: nat)
    requires b < |s.mem.blocks| && b < |s.mem.dirs|
    ensures CommitDir(g, s, b).0.mem.meta == s.mem.meta
  {
  }

  /** The outcome of the remaining single allocations after `ids` have been obtained. */
  ghost function EachFrom(g: Geometry, ids: seq<nat>, s: Sys, env: Env, n: nat): (Sys, seq<nat>, Result<()>) {
    if |s.mem.blocks| != |s.mem.dirs| then (s, ids, Ok(())) else Taking(ids, AllocEach(g, s, env, n))
  }

  lemma EachStep(g: Geometry, ids: seq<nat>, s: Sys, env: Env, n: nat)
    requires |s.mem.blocks| == |s.mem.dirs|
    ensures
      EachFrom(g, ids, s, env, n) ==
      if n == 0 then (s, ids, Ok(()))
      else
        var (s1, r) := AllocProtected(g, Begin(s), env);
        match r
        case Err(e) => (s1, ids, Err(e))
        case Ok(id) => EachFrom(g, ids + [id], s1, env, n - 1)
  {
    hide AllocProtected;
    assert ids + [] == ids;
    if n > 0 && AllocProtected(g, Begin(s), env).1.Ok? {
      var (s1, r) := AllocProtected(g, Begin(s), env);
      var rest := AllocEach(g, s1, env, n - 1).1;
      assert ids + ([r.value] + rest) == ids + [r.value] + rest;
    }
  }

  lemma FlushSizes(g: Geometry, d: Disk, i: nat)
    requires Sized(g, d)
    ensures |Flush(d, i).mapped| == |d.mapped| && |Flush(d, i).durable| == |d.durable| && Sized(g, Flush(d, i))
  {
    FlushSized(g, d, i);
  }

  lemma StoredPage(d: Disk, i: nat, page: Page)
    requires i < |d.mapped|
    ensures MappedPage(Store(d, i, page), i) == page
  {
  }

  lemma WriterInside(g: Geometry, s: Sys, id: nat)
    requires Shaped(g, s) && InUse(g, s.mem, id)
    ensures InactivePhys(EntryOf(g, s.mem, id)) < |s.disk.mapped|
  {
    hide DirectoryInside, Exact, BlockOf, SlotOf, Sized;
    EntryInShape(g, s, BlockOf(g, id), SlotOf(g, id));
  }

  /** Storing a whole page, and flushing it, keeps the file whole and as long as it is. */
  lemma StoreSizes(g: Geometry, d: Disk, i: nat, page: Page)
    requires Sized(g, d) && |page| == g.pageSize
    ensures
      var d1 := Store(d, i, page);
      var d2 := Flush(d1, i);
      && |d1.mapped| == |d2.mapped| == |d.mapped| && |d1.durable| == |d2.durable| == |d.durable|
      && Sized(g, d1) && Sized(g, d2)
  {
    hide Sized;
    StoreSized(g, d, i, page);
    FlushSized(g, Store(d, i, page), i);
  }

  lemma PublishSteps(s: Sys, i: nat, page: Page, page0: Page, next: Mem)
    ensures
      var d1 := Store(s.disk, i, page);
      var d2 := Flush(d1, i);
      var d3 := Store(d2, 0, page0);
      var d4 := Flush(d3, 0);
      Publish(s, i, page, page0, next) ==
      s.(dur := next, disk := d4,
         trace := s.trace + [Point(d1, s.dur, s.dur)] + [Point(d2, s.dur, s.dur)]
                  + [Point(d3, s.dur, next)] + [Point(d4, next, next)])
  {
    hide Store, Flush;
    var d1 := Store(s.disk, i, page);
    var d2 := Flush(d1, i);
    var d3 := Store(d2, 0, page0);
    FourPoints(s.trace, Point(d1, s.dur, s.dur), Point(d2, s.dur, s.dur), Point(d3, s.dur, next),
               Point(Flush(d3, 0), next, next));
  }

  /** What `free` answers in such a state, at the start of a call. */
  lemma FreeShaped(g: Geometry, s: Sys, id: nat)
    requires Shaped(g, s)
    ensures FreeReply(s, id, Free(g, Begin(s), id).1)
  {
    hide Sized, DirectoryInside, Exact, Free, AllocatedSet;
    FreeAnswers(g, Begin(s), id);
  }
}
