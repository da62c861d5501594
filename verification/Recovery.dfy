/** `Pager::open` as a function from a file to the in-memory pager state, and what the
    file must hold for it to rebuild a given state. */
module Recovery {
  import opened Bytes
  import opened Results
  import opened Metadata
  import opened Layout

  /** The in-memory state of a pager. */
  datatype Mem = Mem(meta: Meta, active: Selector, blocks: seq<DirBlockRef>, dirs: seq<DirPage>)

  function Super(g: Geometry, active: Selector, checksum: u32): Superblock {
    Superblock(FromLE(MAGIC_BYTES), g.log2, active, checksum)
  }

  /** Page 0 as every commit writes it. */
  function Page0(g: Geometry, m: Mem): Page {
    Page0Bytes(g, Super(g, m.active, g.crc(MetaBytes(g, m.meta))), m.blocks)
  }

  /** The superblock's metadata page when it passes both checks, else the other one when it
      passes its own. */
  function LoadMeta(g: Geometry, file: seq<Page>, sb: Superblock): Option<(Meta, Selector)>
    requires |file| >= 4
  {
    var page := file[sb.active.PageId()];
    var first := ParseMeta(g, page);
    if first.Some? && g.crc(page) == sb.checksum then Some((first.value, sb.active))
    else
      match ParseMeta(g, file[sb.active.Other().PageId()])
      case None => None
      case Some(m) => Some((m, sb.active.Other()))
  }

  function ParseDirAt(g: Geometry, file: seq<Page>, phys: nat): Option<DirPage> {
    if phys >= |file| then None else ParseDir(g, file[phys])
  }

  /** One directory block: its active page, else its other page with the selector corrected. */
  function LoadDir(g: Geometry, file: seq<Page>, r: DirBlockRef): Option<(DirBlockRef, DirPage)> {
    match ParseDirAt(g, file, r.Active())
    case Some(d) => Some((r, d))
    case None =>
      match ParseDirAt(g, file, r.Inactive())
      case Some(d) => Some((r.(active := r.active.Other()), d))
      case None => None
  }

  function LoadDirs(g: Geometry, file: seq<Page>, refs: seq<DirBlockRef>)
    : Option<(seq<DirBlockRef>, seq<DirPage>)>
  {
    if refs == [] then Some(([], []))
    else
      match LoadDir(g, file, refs[0])
      case None => None
      case Some((r, d)) =>
        match LoadDirs(g, file, refs[1..])
        case None => None
        case Some((rs, ds)) => Some(([r] + rs, [d] + ds))
  }

  function Open(g: Geometry, file: seq<Page>): Result<Mem> {
    if |file| == 0 || |file[0]| < 20 then Err(CorruptSuperblock)
    else
      match ParseSuper(file[0][..20])
      case None => Err(CorruptSuperblock)
      case Some(sb) =>
        if !ValidMagic(sb) then Err(CorruptSuperblock)
        else if Pow2(sb.log2) != g.pageSize then Err(InvalidPageSize)
        else if |file| < 4 then Err(CorruptSuperblock)
        else
          match LoadMeta(g, file, sb)
          case None => Err(CorruptMetadata)
          case Some((meta, active)) =>
            match ParseIndex(g, file[0])
            case None => Err(CorruptDirectoryIndex)
            case Some(refs) =>
              match LoadDirs(g, file, refs)
              case None => Err(CorruptProtectedDirectory)
              case Some((blocks, dirs)) => Ok(Mem(meta, active, blocks, dirs))
  }

  // ── When a file holds a state ──────────────────────────────────────────────

  /** The state fits its on-disk layout. */
  ghost predicate Fits(g: Geometry, m: Mem) {
    && MetaFits(g, m.meta)
    && IndexFits(g, m.blocks)
    && |m.dirs| == |m.blocks|
    && forall i :: 0 <= i < |m.dirs| ==> DirFits(g, m.dirs[i])
  }

  ghost predicate DirsStored(g: Geometry, file: seq<Page>, blocks: seq<DirBlockRef>, dirs: seq<DirPage>) {
    && |dirs| == |blocks|
    && forall i :: 0 <= i < |blocks| ==>
         blocks[i].Active() < |file| && file[blocks[i].Active()] == DirBytes(g, dirs[i])
  }

  /** Everything `open` consults for state m: page 0, the active metadata page and the
      active page of every directory block. */
  ghost predicate Encodes(g: Geometry, m: Mem, file: seq<Page>) {
    && |file| >= 4
    && file[0] == Page0(g, m)
    && file[m.active.PageId()] == MetaBytes(g, m.meta)
    && DirsStored(g, file, m.blocks, m.dirs)
  }

  lemma {:induction false} ExponentIsSmall(n: nat)
    ensures n < 8 || 32 * n <= Pow2(n)
  {
    if n == 8 {
      assert Pow2(8) == 256;
    } else if n > 8 {
      ExponentIsSmall(n - 1);
    }
  }

  lemma MagicRoundTrip()
    ensures FromLE(MAGIC_BYTES) < U64_LIMIT
    ensures LE(FromLE(MAGIC_BYTES), 8) == MAGIC_BYTES
  {
    hide FromLE, LE;
    FromLERoundTrip(MAGIC_BYTES);
  }

  lemma SuperReads(g: Geometry, active: Selector, checksum: u32, refs: seq<DirBlockRef>)
    requires IndexFits(g, refs)
    ensures
      var sb := Super(g, active, checksum);
      var page := Page0Bytes(g, sb, refs);
      && ParseSuper(page[..20]) == Some(sb)
      && ValidMagic(sb)
      && ParseIndex(g, page) == Some(refs)
      && |page| == g.pageSize
  {
    ExponentIsSmall(g.log2);
    MagicRoundTrip();
    Page0RoundTrip(g, Super(g, active, checksum), refs);
    IndexRoundTrip(g, Super(g, active, checksum), refs);
  }

  lemma {:induction false} DirsLoad(g: Geometry, file: seq<Page>, blocks: seq<DirBlockRef>, dirs: seq<DirPage>)
    requires DirsStored(g, file, blocks, dirs)
    requires forall i :: 0 <= i < |dirs| ==> DirFits(g, dirs[i])
    ensures LoadDirs(g, file, blocks) == Some((blocks, dirs))
  {
    hide ParseDir, DirBytes, DirFits;
    if blocks != [] {
      DirRoundTrip(g, dirs[0]);
      DirsLoad(g, file, blocks[1..], dirs[1..]);
      assert [blocks[0]] + blocks[1..] == blocks && [dirs[0]] + dirs[1..] == dirs;
    }
  }

  /** `open` rebuilds exactly the state a file holds. */
  lemma OpenRebuilds(g: Geometry, m: Mem, file: seq<Page>)
    requires Fits(g, m) && Encodes(g, m, file)
    ensures Open(g, file) == Ok(m)
  {
    hide ParseSuper, ParseIndex, ParseMeta, LoadDirs, Page0Bytes, MetaBytes, DirBytes, ValidMagic, MetaFits, DirFits;
    SuperReads(g, m.active, g.crc(MetaBytes(g, m.meta)), m.blocks);
    MetaRoundTrip(g, m.meta);
    DirsLoad(g, file, m.blocks, m.dirs);
  }
}
