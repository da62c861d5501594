/** The metadata commit needs no atomic page write: even when a crash leaves page 0 as any
    byte-by-byte mix of its old and new contents, `open` finds exactly the old metadata or
    exactly the new. Nothing is assumed about the checksum function. */
module TornCommit {
  import opened Bytes
  import opened Results
  import opened Metadata
  import opened Layout
  import opened Disks
  import opened Recovery
  import opened PagerSpec
  import opened Ownership
  import opened Safety
  import opened RawAllocation
  import opened Operations

  lemma MixOfEquals(before: Page, after: Page, mix: Page, i: nat, j: nat)
    requires ByteMix(before, after, mix) && i <= j <= |mix| && before[i..j] == after[i..j]
    ensures mix[i..j] == before[i..j]
  {
    forall k | 0 <= k < j - i
      ensures mix[i..j][k] == before[i..j][k]
    {
      assert before[i + k] == before[i..j][k] == after[i..j][k] == after[i + k];
    }
  }

  lemma MixOfSame(page: Page, mix: Page)
    requires ByteMix(page, page, mix)
    ensures mix == page
  {
  }

  /** The parts of page 0, whichever metadata page it selects. */
  lemma Page0Parts(g: Geometry, m: Mem)
    requires Fits(g, m)
    ensures
      var p := Page0(g, m);
      && |p| == g.pageSize
      && p[0..8] == MAGIC_BYTES && p[8..12] == LE(g.log2, 4)
      && p[12] == m.active.ToByte()
      && p[20..] == Seal(g, IndexBody(g, m.blocks))
  {
    hide MetaBytes, Seal, IndexBody;
    MagicRoundTrip();
    var sb := Super(g, m.active, g.crc(MetaBytes(g, m.meta)));
    SuperReads(g, m.active, g.crc(MetaBytes(g, m.meta)), m.blocks);
    var head := SuperBytes(sb);
    SuperParts(sb);
    SplitAppend(head, Seal(g, IndexBody(g, m.blocks)));
    SliceOfFirst(head, Seal(g, IndexBody(g, m.blocks)), 0, 8);
    SliceOfFirst(head, Seal(g, IndexBody(g, m.blocks)), 8, 12);
  }

  lemma SuperParts(sb: Superblock)
    ensures SuperBytes(sb)[0..8] == LE(sb.magic, 8) && SuperBytes(sb)[8..12] == LE(sb.log2, 4)
    ensures SuperBytes(sb)[12] == sb.active.ToByte()
  {
  }

  /** A mix of two page 0s over the same directory still names one of the metadata pages,
      and its directory section is intact. */
  lemma MixParses(g: Geometry, m: Mem, n: Mem, mix: Page)
    requires Fits(g, m) && Fits(g, n) && m.blocks == n.blocks
    requires ByteMix(Page0(g, m), Page0(g, n), mix)
    ensures |mix| == g.pageSize
    ensures ParseIndex(g, mix) == Some(m.blocks)
    ensures
      var sb := ParseSuper(mix[..20]);
      && sb.Some? && ValidMagic(sb.value) && sb.value.log2 == g.log2
      && (sb.value.active == m.active || sb.value.active == n.active)
  {
    hide Page0, Seal, IndexBody, ParseIndex;
    var p, q := Page0(g, m), Page0(g, n);
    Page0Parts(g, m);
    Page0Parts(g, n);
    MixOfEquals(p, q, mix, 0, 8);
    MixOfEquals(p, q, mix, 8, 12);
    assert p[20..|mix|] == p[20..] && q[20..|mix|] == q[20..] && mix[20..|mix|] == mix[20..];
    MixOfEquals(p, q, mix, 20, |mix|);
    IndexReadsTail(g, mix, p);
    SuperOfPage0(g, m);
    SuperFields(g, mix);
  }

  lemma SuperOfPage0(g: Geometry, m: Mem)
    requires Fits(g, m)
    ensures ParseIndex(g, Page0(g, m)) == Some(m.blocks)
  {
    hide MetaBytes, ParseIndex, Page0Bytes;
    SuperReads(g, m.active, g.crc(MetaBytes(g, m.meta)), m.blocks);
  }

  lemma SuperFields(g: Geometry, data: Page)
    requires |data| >= 20 && data[0..8] == MAGIC_BYTES && data[8..12] == LE(g.log2, 4) && data[12] <= 1
    ensures
      var sb := ParseSuper(data[..20]);
      && sb.Some? && ValidMagic(sb.value) && sb.value.log2 == g.log2
      && sb.value.active.ToByte() == data[12]
  {
    ExponentIsSmall(g.log2);
    MagicRoundTrip();
    LE4RoundTrip(g.log2);
    assert data[..20][0..8] == data[0..8] && data[..20][8..12] == data[8..12];
  }

  /** Whatever checksum page 0 carries, with both metadata pages good the loader returns
      one of them. */
  lemma EitherLoads(g: Geometry, m: Mem, n: Mem, file: seq<Page>)
    requires Fits(g, m) && Fits(g, n) && n.blocks == m.blocks && n.dirs == m.dirs && n.active == m.active.Other()
    requires |file| >= 4 && ByteMix(Page0(g, m), Page0(g, n), file[0])
    requires file[m.active.PageId()] == MetaBytes(g, m.meta)
    requires file[n.active.PageId()] == MetaBytes(g, n.meta)
    requires DirsStored(g, file, m.blocks, m.dirs)
    ensures Open(g, file) == Ok(m) || Open(g, file) == Ok(n)
  {
    hide Page0, MetaBytes, ParseMeta, ParseIndex, ParseSuper, ValidMagic, LoadDirs, ByteMix;
    MixParses(g, m, n, file[0]);
    MetaRoundTrip(g, m.meta);
    MetaRoundTrip(g, n.meta);
    DirsLoad(g, file, m.blocks, m.dirs);
  }

  // ── Every crash point of a commit ──────────────────────────────────────────

  /** The directory and the active metadata page are where `open` looks for them. */
  lemma CoreOfImage(g: Geometry, m: Mem, d: Disk, file: seq<Page>)
    requires Consistent(g, m) && Sound(d) && |d.durable| >= 4 && m.meta.total <= |d.durable|
    requires |file| == |d.durable| && CleanCore(m, d)
    requires forall i: nat :: 0 < i < |file| && i !in d.dirty ==> file[i] == d.durable[i]
    requires d.durable[m.active.PageId()] == MetaBytes(g, m.meta)
    requires DirsStored(g, d.durable, m.blocks, m.dirs)
    ensures file[m.active.PageId()] == MetaBytes(g, m.meta)
    ensures DirsStored(g, file, m.blocks, m.dirs)
  {
    hide MetaBytes, DirBytes, Exact, MetaFits, Doubled, DirShape, Owned;
    forall i | 0 <= i < |m.blocks|
      ensures m.blocks[i].Active() < |file| && file[m.blocks[i].Active()] == DirBytes(g, m.dirs[i])
    {
      OwnedActive(g, m, i);
    }
  }

  lemma OwnedActive(g: Geometry, m: Mem, i: nat)
    requires Consistent(g, m) && i < |m.blocks|
    ensures FIRST_DATA_PAGE <= m.blocks[i].Active() < m.meta.total
  {
    BlockPageOwned(m, i);
  }

  /** While page 0 is clean, a torn image is an ordinary crash image. */
  lemma CleanTorn(g: Geometry, d: Disk, file: seq<Page>)
    requires Settled(d) && TornImage(g, d, file)
    ensures CrashImage(g, d, file)
  {
    PageZeroClean(d);
    MixOfSame(d.durable[0], file[0]);
  }

  lemma ActiveNonzero(g: Geometry, m: Mem)
    requires Consistent(g, m)
    ensures forall i :: 0 <= i < |m.blocks| ==> m.blocks[i].Active() != 0
  {
    forall i | 0 <= i < |m.blocks|
      ensures m.blocks[i].Active() != 0
    {
      OwnedActive(g, m, i);
    }
  }

  lemma SameStored(g: Geometry, d: Disk, m: Mem, p0: Page)
    requires |d.durable| >= 4 && DirsStored(g, d.durable[0 := p0], m.blocks, m.dirs) && Consistent(g, m)
    ensures DirsStored(g, d.durable, m.blocks, m.dirs)
  {
    hide DirBytes, Consistent;
    ActiveNonzero(g, m);
  }

  /** The one point where page 0 itself is in flight. */
  lemma FlipTorn(g: Geometry, dur: Mem, next: Mem, d: Disk, a: Abs, file: seq<Page>)
    requires Sound(d) && |d.durable| >= 4
    requires Survives(g, dur, d, d.durable[0], a) && Survives(g, next, d, d.mapped[0], a)
    requires next.active == dur.active.Other() && next.blocks == dur.blocks && next.dirs == dur.dirs
    requires TornImage(g, d, file)
    ensures Open(g, file) == Ok(dur) || Open(g, file) == Ok(next)
  {
    hide MetaBytes, DirBytes, Page0, Consistent, Holds;
    ConsistentFits(g, dur);
    ConsistentFits(g, next);
    SameStored(g, d, dur, d.durable[0]);
    CoreOfImage(g, dur, d, file);
    SameStored(g, d, next, d.mapped[0]);
    CoreOfImage(g, next, d, file);
    EitherLoads(g, dur, next, file);
  }

  lemma SoundSize(d: Disk)
    requires Sound(d)
    ensures |d.durable| == |d.mapped|
  {
  }

  /** One point of a commit, under byte-wise tearing of page 0. */
  lemma PointTorn(g: Geometry, pt: Point, a: Abs, file: seq<Page>)
    requires PointOk(g, pt, a, a) && TornImage(g, pt.disk, file)
    requires Settled(pt.disk) ||
             (pt.next.active == pt.cur.active.Other() && pt.next.blocks == pt.cur.blocks && pt.next.dirs == pt.cur.dirs)
    ensures Open(g, file) == Ok(pt.cur) || Open(g, file) == Ok(pt.next)
  {
    hide Survives, Open, Sound, TornImage;
    if Settled(pt.disk) {
      CleanTorn(g, pt.disk, file);
      PageZeroClean(pt.disk);
      assert file[0] == pt.disk.durable[0];
      CrashRecovers(g, pt.cur, pt.disk, a, file);
    } else {
      SoundSize(pt.disk);
      FlipTorn(g, pt.cur, pt.next, pt.disk, a, file);
    }
  }

  lemma CommitTrace(g: Geometry, s: Sys)
    requires s.mapped && s.trace == []
    requires Settled(s.disk)
    ensures
      var s' := Commit(g, s).0;
      && |s'.trace| == 4
      && (forall i :: 0 <= i < 4 ==> s'.trace[i].cur == s.dur || s'.trace[i].cur == s'.dur)
      && (forall i :: 0 <= i < 4 ==> s'.trace[i].next == s.dur || s'.trace[i].next == s'.dur)
      && (forall i :: 0 <= i < 4 && i != 2 ==> Settled(s'.trace[i].disk))
      && s'.trace[2].cur == s.dur && s'.trace[2].next == s'.dur
  {
    var target := s.mem.active.Other();
    var buf := MetaBytes(g, NextGeneration(s.mem.meta));
    var page0 := Page0Bytes(g, Super(g, target, g.crc(buf)), s.mem.blocks);
    hide MetaBytes, Page0Bytes, Super, Sound;
    StoreAndFlush(s.disk, target.PageId(), buf);
    var d2 := Flush(Store(s.disk, target.PageId(), buf), target.PageId());
    PageZeroClean(d2);
    StoreAndFlushZero(d2, page0, 4);
  }

  /** The metadata commit is crash-atomic under byte-wise tearing: at each of its disks, with
      the inactive metadata page torn to anything before its flush and page 0 any mix of old
      and new bytes, `open` returns exactly the old state or exactly the new one, which is the
      old one with memory's bitmap, the next generation and the other metadata page. */
  lemma CommitIsAtomic(g: Geometry, s: Sys, a: Abs, at: nat, file: seq<Page>)
    requires Ready(g, s, a) && s.trace == [] && s.mem.meta.generation + 1 < U64_LIMIT
    requires at < |Commit(g, s).0.trace| && TornImage(g, Commit(g, s).0.trace[at].disk, file)
    ensures
      var next := s.dur.(meta := NextGeneration(s.mem.meta), active := s.dur.active.Other());
      Open(g, file) == Ok(s.dur) || Open(g, file) == Ok(next)
  {
    hide PointOk, Open, TornImage, Commit, Settled, Steady;
    EmptyTraceOk(g, a);
    CommitSteady(g, s, a, a, a);
    SettledReady(g, s, a);
    CommitTrace(g, s);
    PointTorn(g, Commit(g, s).0.trace[at], a, file);
  }

  lemma SettledReady(g: Geometry, s: Sys, a: Abs)
    requires Ready(g, s, a)
    ensures Settled(s.disk) && s.mapped && s.dur.active == s.mem.active
  {
    hide Survives, Consistent, DirsLag;
  }
}
