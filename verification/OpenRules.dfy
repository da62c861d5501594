/** What `open` answers for any file, in terms of the bytes in it: which state, or which error. */
module OpenRules {
  import opened Bytes
  import opened Results
  import opened Metadata
  import opened Layout
  import opened Formats
  import opened Recovery

  // ── What a file must hold ──────────────────────────────────────────────────

  /** Page 0 starts with the tag and a version that is understood, and names a metadata page. */
  predicate Recognised(file: seq<Page>) {
    && |file| > 0 && |file[0]| >= 20
    && file[0][0] == 77 && file[0][1] == 80 && file[0][2] == 80 && file[0][3] == 71
    && file[0][4] == 0 && file[0][5] <= 2 && file[0][12] <= 1
  }

  /** The metadata page byte 12 names, and the other one. */
  function FirstMeta(file: seq<Page>): Page
    requires Recognised(file) && |file| >= 4
  {
    if file[0][12] == 0 then file[1] else file[2]
  }

  function SecondMeta(file: seq<Page>): Page
    requires Recognised(file) && |file| >= 4
  {
    if file[0][12] == 0 then file[2] else file[1]
  }

  /** The page says this, and its checksum is the one page 0 gives. */
  predicate Vouched(g: Geometry, file: seq<Page>, m: Meta)
    requires Recognised(file) && |file| >= 4
  {
    SaysMeta(g, FirstMeta(file), m) && Field(file[0], 16, 4, g.crc(FirstMeta(file)))
  }

  ghost predicate LoadsMeta(g: Geometry, file: seq<Page>, m: Meta, active: Selector)
    requires Recognised(file) && |file| >= 4
  {
    var named := if file[0][12] == 0 then A else B;
    || (active == named && Vouched(g, file, m))
    || (active != named && SaysMeta(g, SecondMeta(file), m) && forall n :: !Vouched(g, file, n))
  }

  predicate HoldsDir(g: Geometry, file: seq<Page>, phys: nat, d: DirPage) {
    phys < |file| && SaysDir(g, file[phys], d)
  }

  /** The page a reference names first, and the other one. */
  function Copies(r: DirBlockRef): (nat, nat) {
    match r.active
    case A => (r.pageA, r.pageB)
    case B => (r.pageB, r.pageA)
  }

  /** One directory block: the copy the reference names, or else the other copy, and then the
      reference names that one. */
  ghost predicate LoadsBlock(g: Geometry, file: seq<Page>, r: DirBlockRef, r': DirBlockRef, d: DirPage) {
    && r'.pageA == r.pageA && r'.pageB == r.pageB
    && (if r'.active == r.active then HoldsDir(g, file, Copies(r).0, d)
        else HoldsDir(g, file, Copies(r).1, d) && forall e :: !HoldsDir(g, file, Copies(r).0, e))
  }

  ghost predicate Unloadable(g: Geometry, file: seq<Page>, r: DirBlockRef) {
    (forall d :: !HoldsDir(g, file, Copies(r).0, d)) && forall d :: !HoldsDir(g, file, Copies(r).1, d)
  }

  ghost predicate LoadsAll(g: Geometry, file: seq<Page>, refs: seq<DirBlockRef>, blocks: seq<DirBlockRef>, dirs: seq<DirPage>) {
    && |blocks| == |refs| && |dirs| == |refs|
    && forall i :: 0 <= i < |refs| ==> LoadsBlock(g, file, refs[i], blocks[i], dirs[i])
  }

  /** The file opens to this state. */
  ghost predicate Opens(g: Geometry, file: seq<Page>, m: Mem) {
    && Recognised(file) && Field(file[0], 8, 4, g.log2) && |file| >= 4
    && LoadsMeta(g, file, m.meta, m.active)
    && exists refs :: SaysIndex(g, file[0], refs) && LoadsAll(g, file, refs, m.blocks, m.dirs)
  }

  // ── Each step of `open` ────────────────────────────────────────────────────

  lemma {:induction false} Pow2Injective(a: nat, b: nat)
    requires Pow2(a) == Pow2(b)
    ensures a == b
  {
    if a > 0 && b > 0 {
      Pow2Injective(a - 1, b - 1);
    }
  }

  lemma MagicExact(page: Page, sb: Superblock)
    requires |page| >= 20 && sb.magic == FromLE(page[0..8])
    ensures ValidMagic(sb) <==>
              page[0] == 77 && page[1] == 80 && page[2] == 80 && page[3] == 71 && page[4] == 0 && page[5] <= 2
  {
    hide FromLE, LE;
    FromLERoundTrip(page[0..8]);
    assert LE(sb.magic, 8) == page[0..8];
  }

  /** The fields of a page 0 whose selector byte is understood. */
  lemma SuperParts(page: Page)
    requires |page| >= 20
    ensures
      var sb := ParseSuper(page[..20]);
      && (sb.None? <==> page[12] > 1)
      && (sb.Some? ==>
            && sb.value.active == (if page[12] == 0 then A else B)
            && sb.value.magic == FromLE(page[0..8]) && sb.value.log2 == FromLE(page[8..12])
            && sb.value.checksum == FromLE(page[16..20]))
  {
    hide FromLE;
    var data := page[..20];
    assert data[12] == page[12];
    assert data[0..8] == page[0..8] && data[8..12] == page[8..12] && data[16..20] == page[16..20];
  }

  lemma SuperExact(g: Geometry, page: Page)
    requires |page| >= 20
    ensures
      var sb := ParseSuper(page[..20]);
      && (sb.None? <==> page[12] > 1)
      && (sb.Some? ==>
            && sb.value.active == (if page[12] == 0 then A else B)
            && (ValidMagic(sb.value) <==>
                  page[0] == 77 && page[1] == 80 && page[2] == 80 && page[3] == 71 && page[4] == 0 && page[5] <= 2)
            && (Pow2(sb.value.log2) == g.pageSize <==> Field(page, 8, 4, g.log2))
            && (forall c: nat :: sb.value.checksum == c <==> Field(page, 16, 4, c)))
  {
    hide FromLE, Field, ParseSuper, ValidMagic;
    SuperParts(page);
    var sb := ParseSuper(page[..20]);
    if sb.Some? {
      MagicExact(page, sb.value);
      FieldReads(page, 8, 4, g.log2);
      if Pow2(sb.value.log2) == g.pageSize {
        Pow2Injective(sb.value.log2, g.log2);
      }
      forall c: nat
        ensures sb.value.checksum == c <==> Field(page, 16, 4, c)
      {
        FieldReads(page, 16, 4, c);
      }
    }
  }

  lemma MetaLoaded(g: Geometry, file: seq<Page>, sb: Superblock)
    requires Recognised(file) && |file| >= 4 && ParseSuper(file[0][..20]) == Some(sb)
    ensures forall m, active :: LoadMeta(g, file, sb) == Some((m, active)) <==> LoadsMeta(g, file, m, active)
  {
    hide ParseSuper, ParseMeta, SaysMeta, Field, ValidMagic;
    SuperExact(g, file[0]);
    ParseExactly(g, FirstMeta(file));
    ParseExactly(g, SecondMeta(file));
    var first := ParseMeta(g, FirstMeta(file));
    VouchedExactly(g, file, sb);
    forall m, active
      ensures LoadMeta(g, file, sb) == Some((m, active)) <==> LoadsMeta(g, file, m, active)
    {
      if first.Some? && g.crc(FirstMeta(file)) == sb.checksum {
        assert Vouched(g, file, first.value);
      }
    }
  }

  lemma VouchedExactly(g: Geometry, file: seq<Page>, sb: Superblock)
    requires Recognised(file) && |file| >= 4 && ParseSuper(file[0][..20]) == Some(sb)
    ensures forall m :: Vouched(g, file, m) <==>
              ParseMeta(g, FirstMeta(file)) == Some(m) && g.crc(FirstMeta(file)) == sb.checksum
  {
    hide ParseSuper, ParseMeta, SaysMeta, Field, ValidMagic;
    SuperExact(g, file[0]);
    ParseExactly(g, FirstMeta(file));
  }

  lemma DirHeld(g: Geometry, file: seq<Page>, phys: nat)
    ensures forall d :: ParseDirAt(g, file, phys) == Some(d) <==> HoldsDir(g, file, phys, d)
  {
    hide ParseDir, SaysDir;
    if phys < |file| {
      ParseExactly(g, file[phys]);
    }
  }

  lemma BlockLoaded(g: Geometry, file: seq<Page>, r: DirBlockRef)
    ensures forall r', d :: LoadDir(g, file, r) == Some((r', d)) <==> LoadsBlock(g, file, r, r', d)
    ensures LoadDir(g, file, r).None? <==> Unloadable(g, file, r)
  {
    hide ParseDirAt, HoldsDir;
    DirHeld(g, file, r.Active());
    DirHeld(g, file, r.Inactive());
    var first := ParseDirAt(g, file, r.Active());
    if first.Some? {
      assert HoldsDir(g, file, r.Active(), first.value);
    }
    var second := ParseDirAt(g, file, r.Inactive());
    if second.Some? {
      assert HoldsDir(g, file, r.Inactive(), second.value);
    }
  }

  lemma {:induction false} DirsLoaded(g: Geometry, file: seq<Page>, refs: seq<DirBlockRef>, blocks: seq<DirBlockRef>, dirs: seq<DirPage>)
    ensures LoadDirs(g, file, refs) == Some((blocks, dirs)) <==> LoadsAll(g, file, refs, blocks, dirs)
  {
    hide LoadDir, LoadsBlock;
    if refs == [] {
    } else if blocks != [] && dirs != [] {
      BlockLoaded(g, file, refs[0]);
      DirsLoaded(g, file, refs[1..], blocks[1..], dirs[1..]);
      assert blocks == [blocks[0]] + blocks[1..] && dirs == [dirs[0]] + dirs[1..];
      AllFirst(g, file, refs, blocks, dirs);
    }
  }

  lemma DirsLoadedExactly(g: Geometry, file: seq<Page>, refs: seq<DirBlockRef>)
    ensures forall blocks, dirs :: LoadDirs(g, file, refs) == Some((blocks, dirs)) <==> LoadsAll(g, file, refs, blocks, dirs)
  {
    hide LoadDirs, LoadsAll;
    forall blocks, dirs
      ensures LoadDirs(g, file, refs) == Some((blocks, dirs)) <==> LoadsAll(g, file, refs, blocks, dirs)
    {
      DirsLoaded(g, file, refs, blocks, dirs);
    }
  }

  lemma AllFirst(g: Geometry, file: seq<Page>, refs: seq<DirBlockRef>, blocks: seq<DirBlockRef>, dirs: seq<DirPage>)
    requires refs != [] && blocks != [] && dirs != []
    ensures LoadsAll(g, file, refs, blocks, dirs) <==>
              LoadsBlock(g, file, refs[0], blocks[0], dirs[0]) && LoadsAll(g, file, refs[1..], blocks[1..], dirs[1..])
  {
    hide LoadsBlock;
    if LoadsAll(g, file, refs[1..], blocks[1..], dirs[1..]) && LoadsBlock(g, file, refs[0], blocks[0], dirs[0]) {
      forall i | 0 <= i < |refs|
        ensures LoadsBlock(g, file, refs[i], blocks[i], dirs[i])
      {
        if i > 0 {
          assert LoadsBlock(g, file, refs[1..][i - 1], blocks[1..][i - 1], dirs[1..][i - 1]);
        }
      }
    }
  }

  lemma {:induction false} DirsUnloadable(g: Geometry, file: seq<Page>, refs: seq<DirBlockRef>)
    ensures LoadDirs(g, file, refs).None? <==> exists i :: 0 <= i < |refs| && Unloadable(g, file, refs[i])
  {
    hide LoadDir, Unloadable;
    if refs != [] {
      BlockLoaded(g, file, refs[0]);
      DirsUnloadable(g, file, refs[1..]);
      if i :| 0 <= i < |refs[1..]| && Unloadable(g, file, refs[1..][i]) {
        assert Unloadable(g, file, refs[i + 1]);
      }
      if i :| 0 <= i < |refs| && Unloadable(g, file, refs[i]) {
        assert i > 0 ==> refs[i] == refs[1..][i - 1];
      }
    }
  }

  // ── The answer ─────────────────────────────────────────────────────────────

  /** `open` succeeds with a state exactly when the file holds it. */
  lemma OpenExact(g: Geometry, file: seq<Page>, m: Mem)
    ensures Open(g, file) == Ok(m) <==> Opens(g, file, m)
  {
    hide ParseSuper, ParseIndex, SaysIndex, LoadMeta, LoadsMeta, LoadDirs, LoadsAll, Field, ValidMagic;
    if Recognised(file) && |file| >= 4 {
      SuperExact(g, file[0]);
      MetaLoaded(g, file, ParseSuper(file[0][..20]).value);
      ParseExactly(g, file[0]);
      var refs := ParseIndex(g, file[0]);
      if refs.Some? {
        DirsLoaded(g, file, refs.value, m.blocks, m.dirs);
      }
    } else if |file| > 0 && |file[0]| >= 20 {
      SuperExact(g, file[0]);
    }
  }

  lemma OpenExactly(g: Geometry, file: seq<Page>)
    ensures forall m :: Open(g, file) == Ok(m) <==> Opens(g, file, m)
  {
    hide Open, Opens;
    forall m
      ensures Open(g, file) == Ok(m) <==> Opens(g, file, m)
    {
      OpenExact(g, file, m);
    }
  }

  /** Which error it answers otherwise: the first of these that applies. */
  lemma OpenRefusal(g: Geometry, file: seq<Page>)
    ensures
      var r := Open(g, file);
      if !Recognised(file) then r == Err(CorruptSuperblock)
      else if !Field(file[0], 8, 4, g.log2) then r == Err(InvalidPageSize)
      else if |file| < 4 then r == Err(CorruptSuperblock)
      else if forall m :: !Vouched(g, file, m) && !SaysMeta(g, SecondMeta(file), m) then r == Err(CorruptMetadata)
      else if forall refs :: !SaysIndex(g, file[0], refs) then r == Err(CorruptDirectoryIndex)
      else if exists refs :: SaysIndex(g, file[0], refs) && exists i :: 0 <= i < |refs| && Unloadable(g, file, refs[i])
      then r == Err(CorruptProtectedDirectory)
      else r.Ok?
  {
    hide ParseSuper, ParseIndex, SaysIndex, LoadMeta, LoadsMeta, LoadDirs, Field, ValidMagic, Vouched, SaysMeta, Unloadable;
    if |file| > 0 && |file[0]| >= 20 {
      SuperExact(g, file[0]);
    }
    if Recognised(file) && |file| >= 4 {
      var sb := ParseSuper(file[0][..20]).value;
      MetaFound(g, file, sb);
      ParseExactly(g, file[0]);
      var refs := ParseIndex(g, file[0]);
      if refs.Some? {
        DirsUnloadable(g, file, refs.value);
      }
    }
  }

  lemma MetaFound(g: Geometry, file: seq<Page>, sb: Superblock)
    requires Recognised(file) && |file| >= 4 && ParseSuper(file[0][..20]) == Some(sb)
    ensures LoadMeta(g, file, sb).None? <==> forall m :: !Vouched(g, file, m) && !SaysMeta(g, SecondMeta(file), m)
  {
    hide ParseSuper, ParseMeta, SaysMeta, Field, ValidMagic, Vouched;
    SuperExact(g, file[0]);
    ParseExactly(g, FirstMeta(file));
    ParseExactly(g, SecondMeta(file));
    VouchedExactly(g, file, sb);
    var first, second := ParseMeta(g, FirstMeta(file)), ParseMeta(g, SecondMeta(file));
    if first.Some? && g.crc(FirstMeta(file)) == sb.checksum {
      assert Vouched(g, file, first.value);
    }
    if second.Some? {
      assert SaysMeta(g, SecondMeta(file), second.value);
    }
  }
}
