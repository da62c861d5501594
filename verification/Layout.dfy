/** On-disk layouts of src/meta.rs: superblock, metadata page, directory index and
    directory pages, as functions between values and bytes. */
module Layout {
  import opened Bytes
  import opened Results
  import opened Metadata

  const VERSION_MAJOR: byte := 0
  const VERSION_MINOR: byte := 2
  const MAGIC_TAG: seq<byte> := [77, 80, 80, 71]
  const MAGIC_BYTES: seq<byte> := [77, 80, 80, 71, 0, 2, 0, 0]

  function SatSub(a: nat, b: nat): nat {
    if a <= b then 0 else a - b
  }

  /** Directory references take 17 bytes each: page_a(8) + page_b(8) + active(1). */
  function RefsSize(n: nat): nat {
    17 * n
  }

  /** Directory entries take 30 bytes each. */
  function EntriesSize(n: nat): nat {
    30 * n
  }

  /** Where the n-th directory reference starts in page 0. */
  function RefOffset(n: nat): nat {
    24 + RefsSize(n)
  }

  /** Where the n-th entry starts in a directory page. */
  function EntryOffset(n: nat): nat {
    8 + EntriesSize(n)
  }

  function MaxDirBlocks(pageSize: nat): nat {
    SatSub(pageSize, 20 + 4 + 4) / 17
  }

  function DirEntriesPerPage(pageSize: nat): nat {
    SatSub(pageSize, 8 + 4) / 30
  }

  datatype Selector = A | B {
    function PageId(): nat {
      if A? then 1 else 2
    }

    function Other(): Selector {
      if A? then B else A
    }

    function ToByte(): byte {
      if A? then 0 else 1
    }

    static function FromByte(b: byte): Option<Selector> {
      if b == 0 then Some(A) else if b == 1 then Some(B) else None
    }
  }

  datatype Superblock = Superblock(magic: nat, log2: nat, active: Selector, checksum: nat)

  datatype DirBlockRef = DirBlockRef(pageA: nat, pageB: nat, active: Selector) {
    function Active(): nat {
      if active.A? then pageA else pageB
    }

    function Inactive(): nat {
      if active.A? then pageB else pageA
    }
  }

  datatype DirEntry = DirEntry(inUse: bool, pageA: nat, pageB: nat, activeSlot: byte,
                               generation: nat, checksum: nat)

  const EMPTY_ENTRY: DirEntry := DirEntry(false, 0, 0, 0, 0, 0)

  datatype DirPage = DirPage(capacity: nat, entries: seq<DirEntry>)

  function NewDirPage(pageSize: nat): DirPage {
    var capacity := DirEntriesPerPage(pageSize);
    DirPage(capacity, seq(capacity, _ => EMPTY_ENTRY))
  }

  // ── Values to bytes ────────────────────────────────────────────────────────

  /** A body followed by its own checksum. */
  function Seal(g: Geometry, body: seq<byte>): (s: seq<byte>)
    ensures |s| == |body| + 4
  {
    body + LE(g.crc(body), 4)
  }

  function SuperBytes(sb: Superblock): (s: seq<byte>)
    ensures |s| == 20
  {
    LE(sb.magic, 8) + LE(sb.log2, 4) + [sb.active.ToByte(), 0, 0, 0] + LE(sb.checksum, 4)
  }

  function MetaBody(g: Geometry, m: Meta): seq<byte> {
    LE(m.total, 8) + LE(m.generation, 8) + LE(m.freeCount, 8) + m.bitmap
    + Zeros(SatSub(g.pageSize, 28 + |m.bitmap|))
  }

  function MetaBytes(g: Geometry, m: Meta): seq<byte> {
    Seal(g, MetaBody(g, m))
  }

  function RefBytes(r: DirBlockRef): (s: seq<byte>)
    ensures |s| == RefsSize(1)
  {
    LE(r.pageA, 8) + LE(r.pageB, 8) + [r.active.ToByte()]
  }

  function RefsBytes(refs: seq<DirBlockRef>): (s: seq<byte>)
    ensures |s| == RefsSize(|refs|)
  {
    if refs == [] then [] else RefBytes(refs[0]) + RefsBytes(refs[1..])
  }

  function IndexBody(g: Geometry, refs: seq<DirBlockRef>): seq<byte> {
    LE(|refs|, 4) + RefsBytes(refs)
    + Zeros(SatSub(g.pageSize, RefOffset(|refs|) + 4))
  }

  /** Page 0: the superblock followed by the directory index. */
  function Page0Bytes(g: Geometry, sb: Superblock, refs: seq<DirBlockRef>): seq<byte> {
    SuperBytes(sb) + Seal(g, IndexBody(g, refs))
  }

  function EntryHead(e: DirEntry): (s: seq<byte>)
    ensures |s| == 17
  {
    [if e.inUse then 1 else 0] + LE(e.pageA, 8) + LE(e.pageB, 8)
  }

  function EntryTail(e: DirEntry): (s: seq<byte>)
    ensures |s| == 13
  {
    [e.activeSlot] + LE(e.generation, 8) + LE(e.checksum, 4)
  }

  function EntryBytes(e: DirEntry): (s: seq<byte>)
    ensures |s| == EntriesSize(1)
  {
    EntryHead(e) + EntryTail(e)
  }

  function EntriesBytes(es: seq<DirEntry>): (s: seq<byte>)
    ensures |s| == EntriesSize(|es|)
  {
    if es == [] then [] else EntryBytes(es[0]) + EntriesBytes(es[1..])
  }

  function DirBody(g: Geometry, d: DirPage): seq<byte> {
    LE(d.capacity, 4) + [0, 0, 0, 0] + EntriesBytes(d.entries)
    + DirPadding(g, d)
  }

  /** The zeros between the last entry and the checksum. */
  function DirPadding(g: Geometry, d: DirPage): seq<byte> {
    Zeros(SatSub(g.pageSize, EntryOffset(|d.entries|) + 4))
  }

  function DirBytes(g: Geometry, d: DirPage): seq<byte> {
    Seal(g, DirBody(g, d))
  }

  // ── Bytes to values ────────────────────────────────────────────────────────

  function ParseSuper(data: seq<byte>): Option<Superblock> {
    if |data| < 20 then None
    else
      match Selector.FromByte(data[12])
      case None => None
      case Some(active) =>
        Some(Superblock(FromLE(data[0..8]), FromLE(data[8..12]), active, FromLE(data[16..20])))
  }

  predicate ValidMagic(sb: Superblock) {
    var b := LE(sb.magic, 8);
    b[0..4] == MAGIC_TAG && b[4] == VERSION_MAJOR && b[5] <= VERSION_MINOR
  }

  /** The last four bytes are the checksum of the bytes from `from` up to them. */
  predicate SealedFrom(g: Geometry, data: seq<byte>, from: nat)
    requires from + 4 <= |data|
  {
    FromLE(data[|data| - 4..]) == g.crc(data[from..|data| - 4])
  }

  function ParseMeta(g: Geometry, data: seq<byte>): Option<Meta> {
    if |data| < 28 || !SealedFrom(g, data, 0) then None
    else
      var total := FromLE(data[0..8]);
      var end := 24 + BytesFor(total);
      if end > |data| - 4 then None
      else Some(Meta(total, FromLE(data[8..16]), FromLE(data[16..24]), data[24..end]))
  }

  function ParseRef(data: seq<byte>): Option<DirBlockRef> {
    if |data| < RefsSize(1) then None
    else
      match Selector.FromByte(data[16])
      case None => None
      case Some(active) => Some(DirBlockRef(FromLE(data[0..8]), FromLE(data[8..16]), active))
  }

  /** n references read one after the other. */
  function ParseRefs(data: seq<byte>, n: nat): Option<seq<DirBlockRef>> {
    if n == 0 then Some([])
    else if |data| < 17 then None
    else
      match ParseRef(data[..17])
      case None => None
      case Some(r) =>
        match ParseRefs(data[17..], n - 1)
        case None => None
        case Some(rest) => Some([r] + rest)
  }

  function ParseIndex(g: Geometry, page0: seq<byte>): Option<seq<DirBlockRef>> {
    if |page0| < 20 + 8 then Some([])
    else
      var count := FromLE(page0[20..24]);
      if count == 0 then Some([])
      else if !SealedFrom(g, page0, 20) then None
      else if count > MaxDirBlocks(|page0|) then None
      else ParseRefs(page0[24..], count)
  }

  function ParseEntry(data: seq<byte>): Option<DirEntry> {
    if |data| < EntriesSize(1) then None
    else
      Some(DirEntry(data[0] != 0, FromLE(data[1..9]), FromLE(data[9..17]), data[17],
                    FromLE(data[18..26]), FromLE(data[26..30])))
  }

  /** n entries read one after the other. */
  function ParseEntries(data: seq<byte>, n: nat): Option<seq<DirEntry>> {
    if n == 0 then Some([])
    else if |data| < 30 then None
    else
      match ParseEntry(data[..30])
      case None => None
      case Some(e) =>
        match ParseEntries(data[30..], n - 1)
        case None => None
        case Some(rest) => Some([e] + rest)
  }

  function ParseDir(g: Geometry, data: seq<byte>): Option<DirPage> {
    if |data| < 12 || !SealedFrom(g, data, 0) then None
    else
      var capacity := FromLE(data[0..4]);
      if EntryOffset(capacity) > |data| - 4 then None
      else
        match ParseEntries(data[8..], capacity)
        case None => None
        case Some(entries) => Some(DirPage(capacity, entries))
  }

  // ── Which values fit their layout ──────────────────────────────────────────

  predicate MetaFits(g: Geometry, m: Meta) {
    && m.total < U64_LIMIT && m.generation < U64_LIMIT && m.freeCount < U64_LIMIT
    && |m.bitmap| == BytesFor(m.total)
    && 24 + |m.bitmap| <= g.pageSize - 4
  }

  predicate RefFits(r: DirBlockRef) {
    r.pageA < U64_LIMIT && r.pageB < U64_LIMIT
  }

  predicate EntryFits(e: DirEntry) {
    && e.pageA < U64_LIMIT && e.pageB < U64_LIMIT && e.generation < U64_LIMIT
    && e.checksum < 0x1_0000_0000
  }

  predicate IndexFits(g: Geometry, refs: seq<DirBlockRef>) {
    |refs| <= MaxDirBlocks(g.pageSize) && forall i :: 0 <= i < |refs| ==> RefFits(refs[i])
  }

  predicate DirFits(g: Geometry, d: DirPage) {
    && d.capacity == |d.entries| <= DirEntriesPerPage(g.pageSize)
    && forall i :: 0 <= i < |d.entries| ==> EntryFits(d.entries[i])
  }

  // ── Round trips ────────────────────────────────────────────────────────────

  /** The two count formulas are the largest counts whose layout still fits a page. */
  lemma CountsAreLargest(g: Geometry, n: nat)
    ensures n <= MaxDirBlocks(g.pageSize) <==> RefOffset(n) + 4 <= g.pageSize
    ensures n <= DirEntriesPerPage(g.pageSize) <==> EntryOffset(n) + 4 <= g.pageSize
    ensures MaxDirBlocks(g.pageSize) < 0x1_0000_0000 && 0 < DirEntriesPerPage(g.pageSize) < 0x1_0000_0000
  {
  }

  lemma SliceOfFirst(a: seq<byte>, b: seq<byte>, i: nat, j: nat)
    requires i <= j <= |a|
    ensures (a + b)[i..j] == a[i..j]
  {
  }

  lemma DropOfFirst(a: seq<byte>, b: seq<byte>, i: nat)
    requires i <= |a|
    ensures (a + b)[i..] == a[i..] + b
  {
  }

  lemma AppendAssociates(a: seq<byte>, b: seq<byte>, c: seq<byte>)
    ensures (a + b) + c == a + (b + c)
  {
  }

  lemma SplitAppend(a: seq<byte>, b: seq<byte>)
    ensures (a + b)[..|a|] == a && (a + b)[|a|..] == b
  {
  }

  lemma SealChecks(g: Geometry, head: seq<byte>, body: seq<byte>)
    ensures SealedFrom(g, head + Seal(g, body), |head|)
  {
    var data := head + Seal(g, body);
    assert data[|data| - 4..] == LE(g.crc(body), 4);
    assert data[|head|..|data| - 4] == body;
    LE4RoundTrip(g.crc(body));
  }

  lemma SuperRoundTrip(sb: Superblock, rest: seq<byte>)
    requires sb.magic < U64_LIMIT && sb.log2 < 0x1_0000_0000 && sb.checksum < 0x1_0000_0000
    ensures ParseSuper((SuperBytes(sb) + rest)[..20]) == Some(sb)
  {
    var data := (SuperBytes(sb) + rest)[..20];
    assert data == SuperBytes(sb);
    assert data[0..8] == LE(sb.magic, 8);
    assert data[8..12] == LE(sb.log2, 4);
    assert data[16..20] == LE(sb.checksum, 4);
    LE8RoundTrip(sb.magic);
    LE4RoundTrip(sb.log2);
    LE4RoundTrip(sb.checksum);
  }

  lemma MetaSlices(g: Geometry, m: Meta)
    requires MetaFits(g, m)
    ensures |MetaBody(g, m)| == g.pageSize - 4
    ensures MetaBody(g, m)[0..8] == LE(m.total, 8)
    ensures MetaBody(g, m)[8..16] == LE(m.generation, 8)
    ensures MetaBody(g, m)[16..24] == LE(m.freeCount, 8)
    ensures MetaBody(g, m)[24..24 + |m.bitmap|] == m.bitmap
  {
  }

  /** The page has its size and its checksum, and the fields are where the parser looks. */
  lemma MetaFields(g: Geometry, m: Meta)
    requires MetaFits(g, m)
    ensures
      var data := MetaBytes(g, m);
      && |data| == g.pageSize && SealedFrom(g, data, 0)
      && FromLE(data[0..8]) == m.total && FromLE(data[8..16]) == m.generation && FromLE(data[16..24]) == m.freeCount
      && data[24..24 + |m.bitmap|] == m.bitmap
  {
    hide LE, FromLE, MetaBody, SealedFrom;
    var body := MetaBody(g, m);
    var seal := LE(g.crc(body), 4);
    MetaSlices(g, m);
    SealChecks(g, [], body);
    assert [] + Seal(g, body) == body + seal;
    SliceOfFirst(body, seal, 0, 8);
    SliceOfFirst(body, seal, 8, 16);
    SliceOfFirst(body, seal, 16, 24);
    SliceOfFirst(body, seal, 24, 24 + |m.bitmap|);
    LE8RoundTrip(m.total);
    LE8RoundTrip(m.generation);
    LE8RoundTrip(m.freeCount);
  }

  lemma MetaRoundTrip(g: Geometry, m: Meta)
    requires MetaFits(g, m)
    ensures |MetaBytes(g, m)| == g.pageSize
    ensures ParseMeta(g, MetaBytes(g, m)) == Some(m)
  {
    hide MetaBytes, SealedFrom, FromLE;
    MetaFields(g, m);
  }

  lemma RefRoundTrip(r: DirBlockRef)
    requires RefFits(r)
    ensures ParseRef(RefBytes(r)) == Some(r)
  {
    var data := RefBytes(r);
    assert data[0..8] == LE(r.pageA, 8);
    assert data[8..16] == LE(r.pageB, 8);
    LE8RoundTrip(r.pageA);
    LE8RoundTrip(r.pageB);
  }

  lemma ParseRefsCons(first: seq<byte>, r: DirBlockRef, tail: seq<byte>, refs: seq<DirBlockRef>)
    requires |first| == 17 && ParseRef(first) == Some(r)
    requires ParseRefs(tail, |refs|) == Some(refs)
    ensures ParseRefs(first + tail, |refs| + 1) == Some([r] + refs)
  {
    SplitAppend(first, tail);
  }

  lemma {:induction false} RefsRoundTrip(refs: seq<DirBlockRef>, rest: seq<byte>)
    requires forall i :: 0 <= i < |refs| ==> RefFits(refs[i])
    ensures ParseRefs(RefsBytes(refs) + rest, |refs|) == Some(refs)
  {
    if refs != [] {
      var first, others := RefBytes(refs[0]), RefsBytes(refs[1..]);
      RefRoundTrip(refs[0]);
      RefsRoundTrip(refs[1..], rest);
      ParseRefsCons(first, refs[0], others + rest, refs[1..]);
      AppendAssociates(first, others, rest);
      assert [refs[0]] + refs[1..] == refs;
    }
  }

  lemma IndexRoundTrip(g: Geometry, sb: Superblock, refs: seq<DirBlockRef>)
    requires IndexFits(g, refs)
    ensures |Page0Bytes(g, sb, refs)| == g.pageSize
    ensures ParseIndex(g, Page0Bytes(g, sb, refs)) == Some(refs)
  {
    hide LE, RefsBytes, FromLE;
    CountsAreLargest(g, |refs|);
    var head, body := SuperBytes(sb), IndexBody(g, refs);
    var data := Page0Bytes(g, sb, refs);
    SealChecks(g, head, body);
    assert data[20..24] == LE(|refs|, 4);
    LE4RoundTrip(|refs|);
    var rest := data[RefOffset(|refs|)..];
    assert data[24..] == RefsBytes(refs) + rest;
    RefsRoundTrip(refs, rest);
  }

  /** Page 0 holds both structures at once: each parser reads back what its writer stored. */
  lemma Page0RoundTrip(g: Geometry, sb: Superblock, refs: seq<DirBlockRef>)
    requires sb.magic < U64_LIMIT && sb.log2 < 0x1_0000_0000 && sb.checksum < 0x1_0000_0000
    requires IndexFits(g, refs)
    ensures ParseSuper(Page0Bytes(g, sb, refs)[..20]) == Some(sb)
    ensures ParseIndex(g, Page0Bytes(g, sb, refs)) == Some(refs)
  {
    SuperRoundTrip(sb, Seal(g, IndexBody(g, refs)));
    IndexRoundTrip(g, sb, refs);
  }

  lemma EntryRoundTrip(e: DirEntry)
    requires EntryFits(e)
    ensures ParseEntry(EntryBytes(e)) == Some(e)
  {
    var data := EntryBytes(e);
    var head, tail := EntryHead(e), EntryTail(e);
    assert data[1..9] == head[1..9] == LE(e.pageA, 8);
    assert data[9..17] == head[9..17] == LE(e.pageB, 8);
    assert data[18..26] == tail[1..9] == LE(e.generation, 8);
    assert data[26..30] == tail[9..13] == LE(e.checksum, 4);
    LE8RoundTrip(e.pageA);
    LE8RoundTrip(e.pageB);
    LE8RoundTrip(e.generation);
    LE4RoundTrip(e.checksum);
  }

  lemma ParseEntriesCons(first: seq<byte>, e: DirEntry, tail: seq<byte>, es: seq<DirEntry>)
    requires |first| == 30 && ParseEntry(first) == Some(e)
    requires ParseEntries(tail, |es|) == Some(es)
    ensures ParseEntries(first + tail, |es| + 1) == Some([e] + es)
  {
    SplitAppend(first, tail);
  }

  lemma {:induction false} EntriesRoundTrip(es: seq<DirEntry>, rest: seq<byte>)
    requires forall i :: 0 <= i < |es| ==> EntryFits(es[i])
    ensures ParseEntries(EntriesBytes(es) + rest, |es|) == Some(es)
  {
    if es != [] {
      var first, others := EntryBytes(es[0]), EntriesBytes(es[1..]);
      EntryRoundTrip(es[0]);
      EntriesRoundTrip(es[1..], rest);
      ParseEntriesCons(first, es[0], others + rest, es[1..]);
      AppendAssociates(first, others, rest);
      assert [es[0]] + es[1..] == es;
    }
  }

  lemma DirSlices(g: Geometry, d: DirPage)
    requires DirFits(g, d)
    ensures |DirBody(g, d)| == g.pageSize - 4
    ensures DirBody(g, d)[0..4] == LE(d.capacity, 4)
    ensures DirBody(g, d)[8..] == EntriesBytes(d.entries) + DirPadding(g, d)
  {
    hide LE;
  }

  /** The page has its size, its checksum and its header. */
  lemma DirHeader(g: Geometry, d: DirPage)
    requires DirFits(g, d)
    ensures |DirBytes(g, d)| == g.pageSize && SealedFrom(g, DirBytes(g, d), 0)
    ensures FromLE(DirBytes(g, d)[0..4]) == d.capacity
    ensures EntryOffset(d.capacity) <= g.pageSize - 4
  {
    hide LE, FromLE, DirBody, EntriesBytes, SealedFrom, DirPadding;
    CountsAreLargest(g, |d.entries|);
    var body := DirBody(g, d);
    var seal := LE(g.crc(body), 4);
    DirSlices(g, d);
    SealChecks(g, [], body);
    assert [] + Seal(g, body) == body + seal;
    SliceOfFirst(body, seal, 0, 4);
    LE4RoundTrip(d.capacity);
  }

  lemma DirEntriesParse(g: Geometry, d: DirPage)
    requires DirFits(g, d)
    ensures ParseEntries(DirBytes(g, d)[8..], |d.entries|) == Some(d.entries)
  {
    hide LE, DirBody, EntriesBytes, ParseEntries, DirPadding, EntryFits;
    var body := DirBody(g, d);
    var seal := LE(g.crc(body), 4);
    DirSlices(g, d);
    DropOfFirst(body, seal, 8);
    AppendAssociates(EntriesBytes(d.entries), DirPadding(g, d), seal);
    EntriesRoundTrip(d.entries, DirPadding(g, d) + seal);
  }

  /** The parser, on a page that passes its checks. */
  lemma ParseDirUnfolds(g: Geometry, data: seq<byte>, capacity: nat)
    requires |data| >= 12 && SealedFrom(g, data, 0)
    requires FromLE(data[0..4]) == capacity && EntryOffset(capacity) <= |data| - 4
    ensures
      ParseDir(g, data) ==
      match ParseEntries(data[8..], capacity)
      case None => None
      case Some(entries) => Some(DirPage(capacity, entries))
  {
    hide SealedFrom, FromLE, ParseEntries;
  }

  lemma DirRoundTrip(g: Geometry, d: DirPage)
    requires DirFits(g, d)
    ensures |DirBytes(g, d)| == g.pageSize
    ensures ParseDir(g, DirBytes(g, d)) == Some(d)
  {
    hide ParseDir, DirBytes, SealedFrom, FromLE, ParseEntries, EntryFits;
    DirHeader(g, d);
    DirEntriesParse(g, d);
    ParseDirUnfolds(g, DirBytes(g, d), d.capacity);
  }

  /** The index is read from the bytes after the superblock only. */
  lemma IndexReadsTail(g: Geometry, p: seq<byte>, q: seq<byte>)
    requires |p| == |q| >= 28 && p[20..] == q[20..]
    ensures ParseIndex(g, p) == ParseIndex(g, q)
  {
    var n := |p|;
    assert p[20..24] == p[20..][..4] && q[20..24] == q[20..][..4];
    assert p[n - 4..] == p[20..][n - 24..] && q[n - 4..] == q[20..][n - 24..];
    assert p[20..n - 4] == p[20..][..n - 24] && q[20..n - 4] == q[20..][..n - 24];
    assert p[24..] == p[20..][4..] && q[24..] == q[20..][4..];
  }
}
