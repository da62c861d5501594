/** The serializers and the two looping parsers of src/meta.rs, on byte buffers. */
module Serialization {
  import opened Bytes
  import opened Results
  import opened Metadata
  import opened Layout
  import opened Formats

  /** `buf[off..off + len].copy_from_slice(data)`, seen from a field that began at `from`. */
  method CopyInto(buf: array<byte>, ghost from: nat, off: nat, data: seq<byte>)
    requires from <= off && off + |data| <= buf.Length
    modifies buf
    ensures buf[..from] == old(buf[..from])
    ensures buf[from..off + |data|] == old(buf[from..off]) + data
    ensures forall k :: off + |data| <= k < buf.Length ==> buf[k] == old(buf[k])
  {
    forall k | 0 <= k < |data| {
      buf[off + k] := data[k];
    }
  }

  /** Zeroes everything up to the last four bytes and stores the checksum there. */
  method PadAndSeal(g: Geometry, buf: array<byte>, from: nat, end: nat)
    requires from <= end && end + 4 <= buf.Length
    modifies buf
    ensures buf[..from] == old(buf[..from])
    ensures buf[from..] == Seal(g, old(buf[from..end]) + Zeros(buf.Length - 4 - end))
  {
    hide LE;
    var tail := buf.Length - 4;
    CopyInto(buf, from, end, Zeros(tail - end));
    ghost var body := buf[from..tail];
    CopyInto(buf, from, tail, LE(g.crc(buf[from..tail]), 4));
    assert buf[from..buf.Length] == buf[from..];
  }

  lemma EmptySlice(buf: array<byte>, from: nat, data: seq<byte>)
    requires from <= buf.Length
    ensures buf[from..from] + data == data
  {
  }

  /** `MetaPage::write_to`. */
  method WriteMetaPage(g: Geometry, m: Meta, buf: array<byte>)
    requires buf.Length == g.pageSize && 24 + |m.bitmap| <= g.pageSize - 4
    modifies buf
    ensures buf[..] == MetaBytes(g, m)
    ensures MetaFits(g, m) ==> StoresMeta(g, buf[..], m)
  {
    hide LE, Zeros, Seal, StoresMeta, MetaFits;
    EmptySlice(buf, 0, LE(m.total, 8));
    CopyInto(buf, 0, 0, LE(m.total, 8));
    CopyInto(buf, 0, 8, LE(m.generation, 8));
    CopyInto(buf, 0, 16, LE(m.freeCount, 8));
    CopyInto(buf, 0, 24, m.bitmap);
    PadAndSeal(g, buf, 0, 24 + |m.bitmap|);
    assert buf[0..] == buf[..];
    if MetaFits(g, m) {
      MetaStored(g, m);
    }
  }

  /** `Superblock::write_to`: the rest of page 0 is left alone. */
  method WriteSuperblock(sb: Superblock, page0: array<byte>)
    requires page0.Length >= 20
    modifies page0
    ensures page0[..20] == SuperBytes(sb) && page0[20..] == old(page0[20..])
    ensures sb.magic < U64_LIMIT && sb.log2 < 0x1_0000_0000 && sb.checksum < 0x1_0000_0000 ==> StoresSuper(page0[..], sb)
  {
    hide LE, StoresSuper;
    EmptySlice(page0, 0, LE(sb.magic, 8));
    CopyInto(page0, 0, 0, LE(sb.magic, 8));
    CopyInto(page0, 0, 8, LE(sb.log2, 4));
    CopyInto(page0, 0, 12, [sb.active.ToByte(), 0, 0, 0]);
    CopyInto(page0, 0, 16, LE(sb.checksum, 4));
    assert page0[0..20] == page0[..20];
    assert page0[20..] == old(page0[20..]);
    if sb.magic < U64_LIMIT && sb.log2 < 0x1_0000_0000 && sb.checksum < 0x1_0000_0000 {
      assert page0[..][..20] == page0[..20];
      SuperStored(sb, page0[..]);
    }
  }

  lemma {:induction false} RefsBytesAppend(refs: seq<DirBlockRef>, r: DirBlockRef)
    ensures RefsBytes(refs + [r]) == RefsBytes(refs) + RefBytes(r)
  {
    hide RefBytes;
    if refs == [] {
      assert [r][1..] == [];
    } else {
      assert (refs + [r])[1..] == refs[1..] + [r];
      RefsBytesAppend(refs[1..], r);
      AppendAssociates(RefBytes(refs[0]), RefsBytes(refs[1..]), RefBytes(r));
    }
  }

  lemma {:induction false} EntriesBytesAppend(es: seq<DirEntry>, e: DirEntry)
    ensures EntriesBytes(es + [e]) == EntriesBytes(es) + EntryBytes(e)
  {
    hide EntryBytes;
    if es == [] {
      assert [e][1..] == [];
    } else {
      assert (es + [e])[1..] == es[1..] + [e];
      EntriesBytesAppend(es[1..], e);
      AppendAssociates(EntryBytes(es[0]), EntriesBytes(es[1..]), EntryBytes(e));
    }
  }

  /** `write_dir_blocks`: the superblock is left alone. */
  method WriteDirBlocks(g: Geometry, refs: seq<DirBlockRef>, page0: array<byte>)
    requires page0.Length == g.pageSize && |refs| <= MaxDirBlocks(g.pageSize)
    modifies page0
    ensures page0[20..] == Seal(g, IndexBody(g, refs)) && page0[..20] == old(page0[..20])
    ensures IndexFits(g, refs) ==> StoresIndex(g, page0[..], refs)
  {
    hide LE, Zeros, RefsBytes, RefBytes, Seal, StoresIndex, IndexFits;
    CountsAreLargest(g, |refs|);
    EmptySlice(page0, 20, LE(|refs|, 4));
    CopyInto(page0, 20, 20, LE(|refs|, 4));
    EmptyBytes();
    var i := 0;
    while i < |refs|
      invariant i <= |refs|
      invariant page0[..20] == old(page0[..20])
      invariant page0[20..RefOffset(i)] == LE(|refs|, 4) + RefsBytes(refs[..i])
    {
      RefsBytesAppend(refs[..i], refs[i]);
      assert refs[..i] + [refs[i]] == refs[..i + 1];
      AppendAssociates(LE(|refs|, 4), RefsBytes(refs[..i]), RefBytes(refs[i]));
      CopyInto(page0, 20, RefOffset(i), RefBytes(refs[i]));
      i := i + 1;
    }
    assert refs[..|refs|] == refs;
    PadAndSeal(g, page0, 20, RefOffset(|refs|));
    if IndexFits(g, refs) {
      assert page0[..][20..] == page0[20..];
      IndexStored(g, refs, page0[..]);
    }
  }

  /** A whole page 0: the superblock, then the directory section. */
  method WritePage0(g: Geometry, sb: Superblock, refs: seq<DirBlockRef>) returns (page0: Page)
    requires |refs| <= MaxDirBlocks(g.pageSize)
    ensures page0 == Page0Bytes(g, sb, refs) && |page0| == g.pageSize
  {
    hide SuperBytes, Seal, IndexBody, MaxDirBlocks;
    var buf := new byte[g.pageSize](_ => 0);
    WriteSuperblock(sb, buf);
    WriteDirBlocks(g, refs, buf);
    assert buf[..] == buf[..20] + buf[20..];
    page0 := buf[..];
  }

  lemma EmptyBytes()
    ensures RefsBytes([]) == [] && EntriesBytes([]) == []
  {
  }

  /** The entries of a directory page, after its eight header bytes. */
  method WriteEntries(es: seq<DirEntry>, buf: array<byte>)
    requires EntryOffset(|es|) <= buf.Length
    modifies buf
    ensures buf[0..EntryOffset(|es|)] == old(buf[0..8]) + EntriesBytes(es)
  {
    hide EntriesBytes, EntryBytes;
    EmptyBytes();
    var i := 0;
    while i < |es|
      invariant i <= |es|
      invariant buf[0..EntryOffset(i)] == old(buf[0..8]) + EntriesBytes(es[..i])
    {
      EntriesBytesAppend(es[..i], es[i]);
      assert es[..i] + [es[i]] == es[..i + 1];
      AppendAssociates(old(buf[0..8]), EntriesBytes(es[..i]), EntryBytes(es[i]));
      CopyInto(buf, 0, EntryOffset(i), EntryBytes(es[i]));
      i := i + 1;
    }
    assert es[..|es|] == es;
  }

  /** `DirPage::write_to`. */
  method WriteDirPage(g: Geometry, d: DirPage, buf: array<byte>)
    requires buf.Length == g.pageSize && |d.entries| <= DirEntriesPerPage(g.pageSize)
    modifies buf
    ensures buf[..] == DirBytes(g, d)
    ensures DirFits(g, d) ==> StoresDir(g, buf[..], d)
  {
    hide LE, Zeros, EntriesBytes, Seal, StoresDir, DirFits;
    CountsAreLargest(g, |d.entries|);
    EmptySlice(buf, 0, LE(d.capacity, 4));
    CopyInto(buf, 0, 0, LE(d.capacity, 4));
    CopyInto(buf, 0, 4, [0, 0, 0, 0]);
    WriteEntries(d.entries, buf);
    PadAndSeal(g, buf, 0, EntryOffset(|d.entries|));
    assert buf[0..] == buf[..];
    if DirFits(g, d) {
      DirStored(g, d);
    }
  }

  // ── The looping parsers ────────────────────────────────────────────────────

  lemma DropTwice(data: seq<byte>, i: nat, j: nat)
    requires i + j <= |data|
    ensures data[i..][j..] == data[i + j..]
    ensures data[i..][..j] == data[i..i + j]
  {
  }

  lemma NothingBefore<T>(r: Option<seq<T>>)
    ensures r.Some? ==> [] + r.value == r.value
  {
  }

  /** `read_dir_blocks`. */
  method ReadDirBlocks(g: Geometry, page0: seq<byte>) returns (r: Option<seq<DirBlockRef>>)
    ensures r == ParseIndex(g, page0)
    ensures forall refs :: r == Some(refs) <==> SaysIndex(g, page0, refs)
  {
    hide SaysIndex;
    ParseExactly(g, page0);
    if |page0| < 28 {
      return Some([]);
    }
    var count := FromLE(page0[20..24]);
    if count == 0 {
      return Some([]);
    }
    if FromLE(page0[|page0| - 4..]) != g.crc(page0[20..|page0| - 4]) {
      return None;
    }
    if count > MaxDirBlocks(|page0|) {
      return None;
    }
    r := ReadRefs(page0, count);
  }

  method ReadRefs(page0: seq<byte>, count: nat) returns (r: Option<seq<DirBlockRef>>)
    requires RefOffset(count) <= |page0|
    ensures r == ParseRefs(page0[24..], count)
  {
    hide FromLE, ParseRef;
    var refs := [];
    var i := 0;
    assert page0[RefOffset(0)..] == page0[24..];
    NothingBefore(ParseRefs(page0[24..], count));
    while i < count
      invariant i <= count
      invariant ParseRefs(page0[24..], count) ==
                (match ParseRefs(page0[RefOffset(i)..], count - i)
                 case None => None
                 case Some(rest) => Some(refs + rest))
    {
      var off := RefOffset(i);
      DropTwice(page0, off, 17);
      var next := ParseRef(page0[off..off + 17]);
      if next.None? {
        return None;
      }
      ghost var rest := ParseRefs(page0[RefOffset(i + 1)..], count - i - 1);
      if rest.Some? {
        assert refs + ([next.value] + rest.value) == refs + [next.value] + rest.value;
      }
      refs := refs + [next.value];
      i := i + 1;
    }
    assert refs + [] == refs;
    return Some(refs);
  }

  /** `DirPage::from_bytes`. */
  method ReadDirPage(g: Geometry, data: seq<byte>) returns (r: Option<DirPage>)
    ensures r == ParseDir(g, data)
    ensures forall d :: r == Some(d) <==> SaysDir(g, data, d)
  {
    hide SaysDir;
    ParseExactly(g, data);
    if |data| < 12 {
      return None;
    }
    if FromLE(data[|data| - 4..]) != g.crc(data[0..|data| - 4]) {
      return None;
    }
    var capacity := FromLE(data[0..4]);
    if EntryOffset(capacity) > |data| - 4 {
      return None;
    }
    var entries := ReadEntries(data, capacity);
    if entries.None? {
      return None;
    }
    return Some(DirPage(capacity, entries.value));
  }

  method ReadEntries(data: seq<byte>, capacity: nat) returns (r: Option<seq<DirEntry>>)
    requires EntryOffset(capacity) <= |data|
    ensures r == ParseEntries(data[8..], capacity)
  {
    hide FromLE, ParseEntry;
    var entries := [];
    var i := 0;
    assert data[EntryOffset(0)..] == data[8..];
    NothingBefore(ParseEntries(data[8..], capacity));
    while i < capacity
      invariant i <= capacity
      invariant ParseEntries(data[8..], capacity) ==
                (match ParseEntries(data[EntryOffset(i)..], capacity - i)
                 case None => None
                 case Some(rest) => Some(entries + rest))
    {
      var off := EntryOffset(i);
      DropTwice(data, off, 30);
      var next := ParseEntry(data[off..off + 30]);
      if next.None? {
        return None;
      }
      ghost var rest := ParseEntries(data[EntryOffset(i + 1)..], capacity - i - 1);
      if rest.Some? {
        assert entries + ([next.value] + rest.value) == entries + [next.value] + rest.value;
      }
      entries := entries + [next.value];
      i := i + 1;
    }
    assert entries + [] == entries;
    return Some(entries);
  }
}
