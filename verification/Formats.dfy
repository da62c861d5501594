/** What the pages of a file say, byte by byte. The writers and parsers of `Layout` go by these
    formats: a parser accepts a page exactly when the page says what it returns. */
module Formats {
  import opened Bytes
  import opened Bits
  import opened Results
  import opened Metadata
  import opened Layout

  // ── Fields ─────────────────────────────────────────────────────────────────

  /** The k bytes at `at` hold v, least significant byte first. */
  predicate Field(data: seq<byte>, at: nat, k: nat, v: nat) {
    && at + k <= |data| && v < Pow256(k)
    && forall i :: 0 <= i < k ==> data[at + i] == v / Pow256(i) % 256
  }

  lemma {:induction false} LEByte(n: nat, k: nat, i: nat)
    requires i < k
    ensures LE(n, k)[i] == n / Pow256(i) % 256
  {
    if i > 0 {
      LEByte(n / 256, k - 1, i - 1);
      DivTwice(n, Pow256(i - 1));
    }
  }

  lemma DivTwice(n: nat, p: nat)
    requires p > 0
    ensures n / 256 / p == n / (256 * p)
  {
    var a := n / 256;
    var q := a / p;
    var r := n - q * (256 * p);
    assert n == 256 * a + n % 256;
    assert a == p * q + a % p;
    assert r == 256 * (a % p) + n % 256;
    QuotientIs(n, 256 * p, q, r);
  }

  lemma HalfThenDiv(n: nat, p: nat)
    requires p > 0
    ensures n / 2 / p == n / (2 * p)
  {
    var a := n / 2;
    var q := a / p;
    var r := n - q * (2 * p);
    assert n == 2 * a + n % 2;
    assert a == p * q + a % p;
    assert r == 2 * (a % p) + n % 2;
    QuotientIs(n, 2 * p, q, r);
  }

  lemma QuotientIs(n: nat, d: nat, q: nat, r: int)
    requires d > 0 && n == q * d + r && 0 <= r < d
    ensures n / d == q
  {
    if n / d < q {
      NextTimes(n / d, q, d);
    } else if n / d > q {
      NextTimes(q, n / d, d);
    }
  }

  lemma NextTimes(a: nat, b: nat, d: nat)
    requires a < b
    ensures (a + 1) * d <= b * d
  {
  }

  /** A field holds exactly the number read from it. */
  lemma FieldReads(data: seq<byte>, at: nat, k: nat, v: nat)
    requires at + k <= |data|
    ensures Field(data, at, k, v) <==> FromLE(data[at..at + k]) == v
  {
    hide LE, FromLE, Pow256;
    var s := data[at..at + k];
    FromLERoundTrip(s);
    forall i | 0 <= i < k
      ensures LE(v, k)[i] == v / Pow256(i) % 256
    {
      LEByte(v, k, i);
    }
    if Field(data, at, k, v) {
      assert s == LE(v, k) by {
        assert forall i :: 0 <= i < k ==> s[i] == data[at + i];
      }
      LERoundTrip(v, k);
    }
  }

  /** The last four bytes are the checksum of the bytes from `from` up to them. */
  predicate Sealed(g: Geometry, data: seq<byte>, from: nat) {
    from + 4 <= |data| && Field(data, |data| - 4, 4, g.crc(data[from..|data| - 4]))
  }

  lemma SealReads(g: Geometry, data: seq<byte>, from: nat)
    requires from + 4 <= |data|
    ensures Sealed(g, data, from) <==> SealedFrom(g, data, from)
  {
    hide Field, FromLE;
    FieldReads(data, |data| - 4, 4, g.crc(data[from..|data| - 4]));
    assert data[|data| - 4..] == data[|data| - 4..|data| - 4 + 4];
  }

  function SelectorByte(s: Selector): byte {
    match s
    case A => 0
    case B => 1
  }

  // ── Superblock and metadata page ───────────────────────────────────────────

  predicate SaysSuper(data: seq<byte>, sb: Superblock) {
    && Field(data, 0, 8, sb.magic) && Field(data, 8, 4, sb.log2)
    && 20 <= |data| && data[12] == SelectorByte(sb.active) && Field(data, 16, 4, sb.checksum)
  }

  predicate SaysMeta(g: Geometry, data: seq<byte>, m: Meta) {
    var end := 24 + (m.total + 7) / 8;
    && Sealed(g, data, 0) && end + 4 <= |data|
    && Field(data, 0, 8, m.total) && Field(data, 8, 8, m.generation) && Field(data, 16, 8, m.freeCount)
    && m.bitmap == data[24..end]
  }

  lemma ParseSuperExact(data: seq<byte>, sb: Superblock)
    ensures ParseSuper(data) == Some(sb) <==> SaysSuper(data, sb)
  {
    hide Field, FromLE;
    if |data| >= 20 {
      FieldReads(data, 0, 8, sb.magic);
      FieldReads(data, 8, 4, sb.log2);
      FieldReads(data, 16, 4, sb.checksum);
    }
  }

  lemma ParseMetaExact(g: Geometry, data: seq<byte>, m: Meta)
    ensures ParseMeta(g, data) == Some(m) <==> SaysMeta(g, data, m)
  {
    hide Field, FromLE, Sealed, SealedFrom;
    if |data| >= 28 {
      SealReads(g, data, 0);
      FieldReads(data, 0, 8, m.total);
      FieldReads(data, 8, 8, m.generation);
      FieldReads(data, 16, 8, m.freeCount);
    }
  }

  lemma {:induction false} BitByDivision(n: nat, k: nat)
    ensures Bit(n, k) <==> n / Pow2(k) % 2 == 1
  {
    if k > 0 {
      BitByDivision(n / 2, k - 1);
      HalfThenDiv(n, Pow2(k - 1));
    }
  }

  /** Page p is allocated exactly when bit p mod 8 of byte p / 8 of the bitmap is set, counting from
      the least significant bit. */
  lemma MetaMarks(g: Geometry, data: seq<byte>, m: Meta, p: nat)
    requires SaysMeta(g, data, m) && p < m.total
    ensures 24 + p / 8 < |data|
    ensures Allocated(m, p) <==> data[24 + p / 8] / Pow2(p % 8) % 2 == 1
  {
    hide Field, Sealed, Pow2, Bit;
    BitByDivision(data[24 + p / 8], p % 8);
    assert m.bitmap[p / 8] == data[24 + p / 8];
  }

  // ── Directory index ────────────────────────────────────────────────────────

  predicate SaysRef(data: seq<byte>, at: nat, r: DirBlockRef) {
    && Field(data, at, 8, r.pageA) && Field(data, at + 8, 8, r.pageB)
    && at + 17 <= |data| && data[at + 16] == SelectorByte(r.active)
  }

  /** No directory, or a sealed list of references. */
  predicate SaysIndex(g: Geometry, page0: seq<byte>, refs: seq<DirBlockRef>) {
    if |page0| < 28 || Field(page0, 20, 4, 0) then refs == []
    else
      && Sealed(g, page0, 20) && Field(page0, 20, 4, |refs|) && 24 + 17 * |refs| + 4 <= |page0|
      && forall i :: 0 <= i < |refs| ==> SaysRef(page0, 24 + 17 * i, refs[i])
  }

  lemma SliceInside(data: seq<byte>, at: nat, n: nat, i: nat, j: nat)
    requires i <= j <= n && at + n <= |data|
    ensures data[at..at + n][i..j] == data[at + i..at + j]
  {
    var s := data[at..at + n];
    assert forall k :: 0 <= k < j - i ==> s[i..j][k] == s[i + k] == data[at + i + k] == data[at + i..at + j][k];
  }

  /** A field of a slice is a field of the whole. */
  lemma FieldInside(data: seq<byte>, at: nat, n: nat, i: nat, k: nat, v: nat)
    requires i + k <= n && at + n <= |data|
    ensures Field(data[at..at + n], i, k, v) <==> Field(data, at + i, k, v)
  {
    hide Field;
    FieldReads(data[at..at + n], i, k, v);
    FieldReads(data, at + i, k, v);
    SliceInside(data, at, n, i, i + k);
  }

  lemma ParseRefExact(data: seq<byte>, at: nat, r: DirBlockRef)
    requires at + 17 <= |data|
    ensures ParseRef(data[at..at + 17]) == Some(r) <==> SaysRef(data, at, r)
  {
    hide Field, FromLE;
    var s := data[at..at + 17];
    FieldReads(s, 0, 8, r.pageA);
    FieldReads(s, 8, 8, r.pageB);
    FieldInside(data, at, 17, 0, 8, r.pageA);
    FieldInside(data, at, 17, 8, 8, r.pageB);
  }

  lemma {:induction false} ParseRefsExact(data: seq<byte>, at: nat, n: nat, refs: seq<DirBlockRef>)
    requires at + 17 * n <= |data|
    ensures ParseRefs(data[at..], n) == Some(refs) <==>
            |refs| == n && forall i :: 0 <= i < n ==> SaysRef(data, at + 17 * i, refs[i])
    decreases n
  {
    hide ParseRef, ParseRefs, SaysRef;
    RefsUnfold(data, at, n, refs);
    if n > 0 {
      if refs != [] {
        ParseRefExact(data, at, refs[0]);
        ParseRefsExact(data, at + 17, n - 1, refs[1..]);
        RefsMeet(data, at, n, refs);
      }
    }
  }

  /** The first of n records, then the rest. */
  lemma RefsUnfold(data: seq<byte>, at: nat, n: nat, refs: seq<DirBlockRef>)
    requires at + 17 * n <= |data|
    ensures n == 0 ==> ParseRefs(data[at..], n) == Some([])
    ensures n > 0 ==>
              (ParseRefs(data[at..], n) == Some(refs) <==>
               refs != [] && ParseRef(data[at..at + 17]) == Some(refs[0]) &&
               ParseRefs(data[at + 17..], n - 1) == Some(refs[1..]))
  {
    hide ParseRef;
    if n > 0 {
      assert data[at..][..17] == data[at..at + 17] && data[at..][17..] == data[at + 17..];
      assert refs != [] ==> refs == [refs[0]] + refs[1..];
    }
  }

  lemma RefsMeet(data: seq<byte>, at: nat, n: nat, refs: seq<DirBlockRef>)
    requires refs != [] && n > 0
    ensures
      (|refs| == n && forall i :: 0 <= i < n ==> SaysRef(data, at + 17 * i, refs[i])) <==>
      (SaysRef(data, at, refs[0]) && |refs[1..]| == n - 1 &&
       forall i :: 0 <= i < n - 1 ==> SaysRef(data, at + 17 + 17 * i, refs[1..][i]))
  {
    hide SaysRef;
    if SaysRef(data, at, refs[0]) && |refs[1..]| == n - 1 &&
       forall i :: 0 <= i < n - 1 ==> SaysRef(data, at + 17 + 17 * i, refs[1..][i]) {
      forall i | 0 <= i < n
        ensures SaysRef(data, at + 17 * i, refs[i])
      {
        if i > 0 {
          assert SaysRef(data, at + 17 + 17 * (i - 1), refs[1..][i - 1]);
        }
      }
    }
    if |refs| == n && forall i :: 0 <= i < n ==> SaysRef(data, at + 17 * i, refs[i]) {
      assert SaysRef(data, at + 17 * 0, refs[0]);
      forall i | 0 <= i < n - 1
        ensures SaysRef(data, at + 17 + 17 * i, refs[1..][i])
      {
        assert SaysRef(data, at + 17 * (i + 1), refs[i + 1]);
      }
    }
  }

  lemma CountFits(page: seq<byte>, n: nat)
    requires |page| >= 28
    ensures n <= MaxDirBlocks(|page|) <==> 24 + 17 * n + 4 <= |page|
  {
  }

  lemma ParseIndexExact(g: Geometry, page0: seq<byte>, refs: seq<DirBlockRef>)
    ensures ParseIndex(g, page0) == Some(refs) <==> SaysIndex(g, page0, refs)
  {
    hide Field, FromLE, Sealed, SealedFrom, ParseRefs, SaysRef, MaxDirBlocks;
    if |page0| >= 28 {
      var count := FromLE(page0[20..24]);
      SealReads(g, page0, 20);
      FieldReads(page0, 20, 4, 0);
      FieldReads(page0, 20, 4, |refs|);
      CountFits(page0, count);
      CountFits(page0, |refs|);
      if 24 + 17 * count + 4 <= |page0| {
        ParseRefsExact(page0, 24, count, refs);
      }
    }
  }

  // ── Directory pages ────────────────────────────────────────────────────────

  predicate SaysEntry(data: seq<byte>, at: nat, e: DirEntry) {
    && at + 30 <= |data| && (e.inUse <==> data[at] != 0)
    && Field(data, at + 1, 8, e.pageA) && Field(data, at + 9, 8, e.pageB) && data[at + 17] == e.activeSlot
    && Field(data, at + 18, 8, e.generation) && Field(data, at + 26, 4, e.checksum)
  }

  predicate SaysDir(g: Geometry, data: seq<byte>, d: DirPage) {
    && |data| >= 12 && Sealed(g, data, 0) && Field(data, 0, 4, d.capacity) && |d.entries| == d.capacity
    && 8 + 30 * d.capacity + 4 <= |data|
    && forall i :: 0 <= i < |d.entries| ==> SaysEntry(data, 8 + 30 * i, d.entries[i])
  }

  lemma ParseEntryExact(data: seq<byte>, at: nat, e: DirEntry)
    requires at + 30 <= |data|
    ensures ParseEntry(data[at..at + 30]) == Some(e) <==> SaysEntry(data, at, e)
  {
    hide Field, FromLE;
    var s := data[at..at + 30];
    FieldReads(s, 1, 8, e.pageA);
    FieldReads(s, 9, 8, e.pageB);
    FieldReads(s, 18, 8, e.generation);
    FieldReads(s, 26, 4, e.checksum);
    FieldInside(data, at, 30, 1, 8, e.pageA);
    FieldInside(data, at, 30, 9, 8, e.pageB);
    FieldInside(data, at, 30, 18, 8, e.generation);
    FieldInside(data, at, 30, 26, 4, e.checksum);
  }

  lemma {:induction false} ParseEntriesExact(data: seq<byte>, at: nat, n: nat, es: seq<DirEntry>)
    requires at + 30 * n <= |data|
    ensures ParseEntries(data[at..], n) == Some(es) <==>
            |es| == n && forall i :: 0 <= i < n ==> SaysEntry(data, at + 30 * i, es[i])
    decreases n
  {
    hide ParseEntry, ParseEntries, SaysEntry;
    EntriesUnfold(data, at, n, es);
    if n > 0 {
      if es != [] {
        ParseEntryExact(data, at, es[0]);
        ParseEntriesExact(data, at + 30, n - 1, es[1..]);
        EntriesMeet(data, at, n, es);
      }
    }
  }

  /** The first of n records, then the rest. */
  lemma EntriesUnfold(data: seq<byte>, at: nat, n: nat, es: seq<DirEntry>)
    requires at + 30 * n <= |data|
    ensures n == 0 ==> ParseEntries(data[at..], n) == Some([])
    ensures n > 0 ==>
              (ParseEntries(data[at..], n) == Some(es) <==>
               es != [] && ParseEntry(data[at..at + 30]) == Some(es[0]) &&
               ParseEntries(data[at + 30..], n - 1) == Some(es[1..]))
  {
    hide ParseEntry;
    if n > 0 {
      assert data[at..][..30] == data[at..at + 30] && data[at..][30..] == data[at + 30..];
      assert es != [] ==> es == [es[0]] + es[1..];
    }
  }

  lemma EntriesMeet(data: seq<byte>, at: nat, n: nat, es: seq<DirEntry>)
    requires es != [] && n > 0
    ensures
      (|es| == n && forall i :: 0 <= i < n ==> SaysEntry(data, at + 30 * i, es[i])) <==>
      (SaysEntry(data, at, es[0]) && |es[1..]| == n - 1 &&
       forall i :: 0 <= i < n - 1 ==> SaysEntry(data, at + 30 + 30 * i, es[1..][i]))
  {
    hide SaysEntry;
    if SaysEntry(data, at, es[0]) && |es[1..]| == n - 1 &&
       forall i :: 0 <= i < n - 1 ==> SaysEntry(data, at + 30 + 30 * i, es[1..][i]) {
      forall i | 0 <= i < n
        ensures SaysEntry(data, at + 30 * i, es[i])
      {
        if i > 0 {
          assert SaysEntry(data, at + 30 + 30 * (i - 1), es[1..][i - 1]);
        }
      }
    }
    if |es| == n && forall i :: 0 <= i < n ==> SaysEntry(data, at + 30 * i, es[i]) {
      assert SaysEntry(data, at + 30 * 0, es[0]);
      forall i | 0 <= i < n - 1
        ensures SaysEntry(data, at + 30 + 30 * i, es[1..][i])
      {
        assert SaysEntry(data, at + 30 * (i + 1), es[i + 1]);
      }
    }
  }

  lemma ParseDirExact(g: Geometry, data: seq<byte>, d: DirPage)
    ensures ParseDir(g, data) == Some(d) <==> SaysDir(g, data, d)
  {
    hide Field, FromLE, Sealed, SealedFrom, ParseEntries, SaysEntry;
    if |data| >= 12 {
      var capacity := FromLE(data[0..4]);
      SealReads(g, data, 0);
      FieldReads(data, 0, 4, d.capacity);
      if 8 + 30 * capacity + 4 <= |data| {
        ParseEntriesExact(data, 8, capacity, d.entries);
      }
    }
  }

  // ── What the writers store ─────────────────────────────────────────────────

  predicate ZeroBytes(data: seq<byte>, from: nat, to: nat) {
    to <= |data| && forall i :: from <= i < to ==> data[i] == 0
  }

  /** A whole metadata page, padding included. */
  predicate StoresMeta(g: Geometry, page: Page, m: Meta) {
    |page| == g.pageSize && SaysMeta(g, page, m) && ZeroBytes(page, 24 + |m.bitmap|, |page| - 4)
  }

  predicate StoresSuper(page: Page, sb: Superblock) {
    SaysSuper(page, sb) && ZeroBytes(page, 13, 16)
  }

  /** The directory section, sealed even when it is empty. */
  predicate StoresIndex(g: Geometry, page: Page, refs: seq<DirBlockRef>) {
    && |page| == g.pageSize && Sealed(g, page, 20) && Field(page, 20, 4, |refs|)
    && (forall i :: 0 <= i < |refs| ==> SaysRef(page, 24 + 17 * i, refs[i]))
    && ZeroBytes(page, 24 + 17 * |refs|, |page| - 4)
  }

  predicate StoresEntry(data: seq<byte>, at: nat, e: DirEntry) {
    SaysEntry(data, at, e) && data[at] <= 1
  }

  predicate StoresDir(g: Geometry, page: Page, d: DirPage) {
    && |page| == g.pageSize && SaysDir(g, page, d) && ZeroBytes(page, 4, 8)
    && (forall i :: 0 <= i < |d.entries| ==> StoresEntry(page, 8 + 30 * i, d.entries[i]))
    && ZeroBytes(page, 8 + 30 * |d.entries|, |page| - 4)
  }

  lemma MetaStored(g: Geometry, m: Meta)
    requires MetaFits(g, m)
    ensures StoresMeta(g, MetaBytes(g, m), m)
  {
    hide SaysMeta, MetaBytes, LE;
    MetaRoundTrip(g, m);
    ParseMetaExact(g, MetaBytes(g, m), m);
    MetaPadding(g, m);
  }

  lemma MetaPadding(g: Geometry, m: Meta)
    requires MetaFits(g, m)
    ensures |MetaBytes(g, m)| == g.pageSize && ZeroBytes(MetaBytes(g, m), 24 + |m.bitmap|, g.pageSize - 4)
  {
    hide LE;
  }

  lemma SuperStored(sb: Superblock, page: Page)
    requires sb.magic < U64_LIMIT && sb.log2 < 0x1_0000_0000 && sb.checksum < 0x1_0000_0000
    requires |page| >= 20 && page[..20] == SuperBytes(sb)
    ensures StoresSuper(page, sb)
  {
    hide SaysSuper, SuperBytes, ParseSuper;
    SuperRoundTrip(sb, []);
    assert (SuperBytes(sb) + [])[..20] == page[..20];
    ParseSuperExact(page[..20], sb);
    SuperInside(page, sb);
    SuperPadding(sb);
    assert forall i :: 13 <= i < 16 ==> page[i] == page[..20][i];
  }

  lemma SuperPadding(sb: Superblock)
    ensures ZeroBytes(SuperBytes(sb), 13, 16)
  {
    hide LE;
  }

  lemma SuperInside(page: Page, sb: Superblock)
    requires |page| >= 20
    ensures SaysSuper(page[..20], sb) <==> SaysSuper(page, sb)
  {
    hide Field;
    assert page[..20] == page[0..20];
    FieldInside(page, 0, 20, 0, 8, sb.magic);
    FieldInside(page, 0, 20, 8, 4, sb.log2);
    FieldInside(page, 0, 20, 16, 4, sb.checksum);
  }

  lemma IndexStored(g: Geometry, refs: seq<DirBlockRef>, page: Page)
    requires IndexFits(g, refs) && |page| == g.pageSize && page[20..] == Seal(g, IndexBody(g, refs))
    ensures StoresIndex(g, page, refs)
  {
    hide Field, FromLE, SealedFrom, SaysRef, Page0Bytes, ParseIndex, ParseRefs, MaxDirBlocks;
    CountsAreLargest(g, |refs|);
    IndexParses(g, refs, page);
    IndexHeader(g, refs, page);
    ParseIndexExact(g, page, refs);
    FieldReads(page, 20, 4, |refs|);
    FieldReads(page, 20, 4, 0);
    IndexPadding(g, refs);
    assert forall i :: 24 + 17 * |refs| <= i < |page| - 4 ==> page[i] == page[20..][i - 20];
  }

  lemma IndexParses(g: Geometry, refs: seq<DirBlockRef>, page: Page)
    requires IndexFits(g, refs) && |page| == g.pageSize && page[20..] == Seal(g, IndexBody(g, refs))
    ensures ParseIndex(g, page) == Some(refs)
  {
    hide ParseIndex, Seal, IndexBody, IndexFits;
    var sb := Superblock(0, 0, A, 0);
    IndexRoundTrip(g, sb, refs);
    var q := Page0Bytes(g, sb, refs);
    assert q[20..] == Seal(g, IndexBody(g, refs));
    IndexReadsTail(g, page, q);
  }

  lemma IndexHeader(g: Geometry, refs: seq<DirBlockRef>, page: Page)
    requires IndexFits(g, refs) && |page| == g.pageSize && page[20..] == Seal(g, IndexBody(g, refs))
    ensures Sealed(g, page, 20) && FromLE(page[20..24]) == |refs|
  {
    hide Field, FromLE, SealedFrom, MaxDirBlocks, LE, RefsBytes, Sealed;
    CountsAreLargest(g, |refs|);
    SealChecks(g, page[..20], IndexBody(g, refs));
    assert page == page[..20] + page[20..];
    SealReads(g, page, 20);
    assert page[20..24] == page[20..][..4] == LE(|refs|, 4);
    LE4RoundTrip(|refs|);
  }

  lemma IndexPadding(g: Geometry, refs: seq<DirBlockRef>)
    requires IndexFits(g, refs)
    ensures ZeroBytes(Seal(g, IndexBody(g, refs)), 4 + 17 * |refs|, g.pageSize - 24)
  {
    hide LE, RefsBytes, MaxDirBlocks;
    CountsAreLargest(g, |refs|);
  }

  lemma RefStored(r: DirBlockRef)
    requires RefFits(r)
    ensures SaysRef(RefBytes(r), 0, r)
  {
    hide ParseRef, SaysRef, RefBytes;
    RefRoundTrip(r);
    var data := RefBytes(r);
    assert data[0..0 + 17] == data;
    ParseRefExact(data, 0, r);
  }

  lemma EntryStored(e: DirEntry)
    requires EntryFits(e)
    ensures StoresEntry(EntryBytes(e), 0, e)
  {
    hide ParseEntry, SaysEntry, EntryFits, LE;
    EntryRoundTrip(e);
    var data := EntryBytes(e);
    assert data[0..0 + 30] == data;
    ParseEntryExact(data, 0, e);
  }

  lemma {:induction false} EntryFlag(es: seq<DirEntry>, i: nat)
    requires i < |es|
    ensures EntriesBytes(es)[30 * i] == if es[i].inUse then 1 else 0
  {
    hide LE;
    if i > 0 {
      EntryFlag(es[1..], i - 1);
      assert EntriesBytes(es)[30 * i] == EntriesBytes(es[1..])[30 * (i - 1)];
    }
  }

  lemma DirPaddings(g: Geometry, d: DirPage)
    requires DirFits(g, d)
    ensures |DirBytes(g, d)| == g.pageSize && 8 + 30 * |d.entries| + 4 <= g.pageSize
    ensures ZeroBytes(DirBytes(g, d), 4, 8) && ZeroBytes(DirBytes(g, d), 8 + 30 * |d.entries|, g.pageSize - 4)
    ensures forall i :: 0 <= i < |d.entries| ==> DirBytes(g, d)[8 + 30 * i] == EntriesBytes(d.entries)[30 * i]
  {
    hide LE, EntriesBytes, EntryFits, DirEntriesPerPage;
    CountsAreLargest(g, |d.entries|);
  }

  lemma DirStored(g: Geometry, d: DirPage)
    requires DirFits(g, d)
    ensures StoresDir(g, DirBytes(g, d), d)
  {
    hide SaysEntry, DirBytes, EntriesBytes, DirFits, Sealed, Field;
    DirRoundTrip(g, d);
    ParseDirExact(g, DirBytes(g, d), d);
    DirPaddings(g, d);
    forall i | 0 <= i < |d.entries|
      ensures StoresEntry(DirBytes(g, d), 8 + 30 * i, d.entries[i])
    {
      EntryFlag(d.entries, i);
    }
  }

  // ── What the parsers accept ────────────────────────────────────────────────

  /** A page that says nothing is exactly one the parser rejects. */
  lemma ParseExactly(g: Geometry, data: seq<byte>)
    ensures forall m :: ParseMeta(g, data) == Some(m) <==> SaysMeta(g, data, m)
    ensures forall d :: ParseDir(g, data) == Some(d) <==> SaysDir(g, data, d)
    ensures forall refs :: ParseIndex(g, data) == Some(refs) <==> SaysIndex(g, data, refs)
  {
    hide ParseMeta, SaysMeta, ParseDir, SaysDir, ParseIndex, SaysIndex;
    forall m
      ensures ParseMeta(g, data) == Some(m) <==> SaysMeta(g, data, m)
    {
      ParseMetaExact(g, data, m);
    }
    forall d
      ensures ParseDir(g, data) == Some(d) <==> SaysDir(g, data, d)
    {
      ParseDirExact(g, data, d);
    }
    forall refs
      ensures ParseIndex(g, data) == Some(refs) <==> SaysIndex(g, data, refs)
    {
      ParseIndexExact(g, data, refs);
    }
  }
}
