/** The loops of `create` and `open`: the initial file and the directory loader. */
module Opening {
  import opened Bytes
  import opened Results
  import opened Metadata
  import opened Layout
  import opened Serialization
  import opened Disks
  import opened Recovery
  import opened OpenRules
  import opened Formats
  import opened Runs

  /** The four pages `create` writes and flushes. */
  method WriteInitialFile(g: Geometry, meta: MetaPage) returns (file: seq<Page>)
    requires meta.View() == NewMeta(4)
    ensures file == InitialFile(g)
  {
    hide Page0Bytes, MetaBytes, Zeros, NewMeta, StoresMeta, MetaFits;
    InitialFits(g);
    var d := SetLen(g, Disk([], [], {}), 4);
    var buf := new byte[g.pageSize](_ => 0);
    WriteMetaPage(g, meta.View(), buf);
    var metaBuf := buf[..];
    d := Store(d, 1, metaBuf);
    d := Store(d, 2, metaBuf);
    var page0 := WritePage0(g, Super(g, A, g.crc(metaBuf)), []);
    d := Store(d, 0, page0);
    file := d.mapped;
    assert file[3] == Zeros(g.pageSize);
  }

  /** A directory page inside the file, if it parses. */
  method TryParse(g: Geometry, file: seq<Page>, phys: nat) returns (r: Option<DirPage>)
    ensures r == ParseDirAt(g, file, phys)
  {
    if phys >= |file| {
      return None;
    }
    r := ReadDirPage(g, file[phys]);
  }

  /** The directory pages, block by block, correcting the selector of every fallback. */
  method LoadAll(g: Geometry, file: seq<Page>, refs: seq<DirBlockRef>)
    returns (r: Option<(seq<DirBlockRef>, seq<DirPage>)>)
    ensures r == LoadDirs(g, file, refs)
    ensures forall blocks, dirs :: r == Some((blocks, dirs)) <==> LoadsAll(g, file, refs, blocks, dirs)
  {
    hide LoadDirs, LoadDir, ParseDirAt, LoadsAll;
    DirsLoadedExactly(g, file, refs);
    var blocks, dirs := refs, [];
    var i := 0;
    LoadedNothing(LoadDirs(g, file, refs));
    assert refs[0..] == refs;
    while i < |refs|
      invariant i <= |refs| == |blocks| && |dirs| == i && blocks[i..] == refs[i..]
      invariant LoadDirs(g, file, refs) == Prepended(blocks[..i], dirs, LoadDirs(g, file, refs[i..]))
    {
      var block := blocks[i];
      assert block == blocks[i..][0] == refs[i];
      LoadOne(g, file, refs, i, blocks[..i], dirs);
      LoadTried(g, file, block);
      var page := TryParse(g, file, block.Active());
      if page.None? {
        page := TryParse(g, file, block.Inactive());
        if page.None? {
          return None;
        }
        blocks := blocks[i := block.(active := block.active.Other())];
      }
      assert blocks[..i + 1] == blocks[..i] + [blocks[i]];
      dirs := dirs + [page.value];
      i := i + 1;
    }
    LoadOne(g, file, refs, i, blocks[..i], dirs);
    assert blocks[..i] == blocks;
    return Some((blocks, dirs));
  }

  function Prepended(blocks: seq<DirBlockRef>, dirs: seq<DirPage>, r: Option<(seq<DirBlockRef>, seq<DirPage>)>)
    : Option<(seq<DirBlockRef>, seq<DirPage>)>
  {
    match r
    case None => None
    case Some((rs, ds)) => Some((blocks + rs, dirs + ds))
  }

  lemma LoadTried(g: Geometry, file: seq<Page>, block: DirBlockRef)
    ensures
      var first, second := ParseDirAt(g, file, block.Active()), ParseDirAt(g, file, block.Inactive());
      LoadDir(g, file, block) ==
      if first.Some? then Some((block, first.value))
      else if second.Some? then Some((block.(active := block.active.Other()), second.value)) else None
  {
    hide ParseDirAt;
  }

  lemma LoadOne(g: Geometry, file: seq<Page>, refs: seq<DirBlockRef>, i: nat,
                blocks: seq<DirBlockRef>, dirs: seq<DirPage>)
    requires i <= |refs|
    ensures
      Prepended(blocks, dirs, LoadDirs(g, file, refs[i..])) ==
      if i == |refs| then Some((blocks, dirs))
      else
        match LoadDir(g, file, refs[i])
        case None => None
        case Some((r, d)) => Prepended(blocks + [r], dirs + [d], LoadDirs(g, file, refs[i + 1..]))
  {
    hide LoadDir;
    if i < |refs| {
      assert refs[i..][1..] == refs[i + 1..];
      var rest := LoadDirs(g, file, refs[i + 1..]);
      if LoadDir(g, file, refs[i]).Some? && rest.Some? {
        var ((r, d), (rs, ds)) := (LoadDir(g, file, refs[i]).value, rest.value);
        assert blocks + ([r] + rs) == blocks + [r] + rs && dirs + ([d] + ds) == dirs + [d] + ds;
      }
    } else {
      assert blocks + [] == blocks && dirs + [] == dirs;
    }
  }

  lemma LoadedNothing(r: Option<(seq<DirBlockRef>, seq<DirPage>)>)
    ensures r.Some? ==> [] + r.value.0 == r.value.0 && [] + r.value.1 == r.value.1
  {
  }
}
