/** The allocation bitmap: `MetaPage` of src/meta.rs, its operations and what they mean
    for the set of allocated pages. */
module Metadata {
  import opened Bytes
  import opened Bits
  import opened Results

  const FIRST_DATA_PAGE: nat := 3

  datatype Meta = Meta(total: nat, generation: nat, freeCount: nat, bitmap: seq<byte>)

  function BytesFor(pages: nat): nat {
    (pages + 7) / 8
  }

  predicate BitAt(bitmap: seq<byte>, i: nat) {
    i / 8 < |bitmap| && Bit(bitmap[i / 8], i % 8)
  }

  predicate Allocated(m: Meta, i: nat) {
    i < m.total && BitAt(m.bitmap, i)
  }

  function AllocatedSet(m: Meta): set<nat> {
    set i: nat | i < m.total && Allocated(m, i)
  }

  /** The pages below n. */
  function Range(n: nat): (r: set<nat>)
    ensures forall i: nat :: i in r <==> i < n
    ensures |r| == n
  {
    if n == 0 then {} else Range(n - 1) + {n - 1}
  }

  /** The bitmap covers exactly the pages, its padding bits are zero, pages 0-2 are
      taken and the free count is the number of clear bits below the page count. */
  ghost predicate Exact(m: Meta) {
    && |m.bitmap| == BytesFor(m.total)
    && (forall i: nat :: m.total <= i ==> !BitAt(m.bitmap, i))
    && m.total >= 4
    && Range(FIRST_DATA_PAGE) <= AllocatedSet(m)
    && m.freeCount == m.total - |AllocatedSet(m)|
  }

  // ── Operations as functions ────────────────────────────────────────────────

  function SetByteBit(b: byte, k: nat): byte
    requires k < 8
  {
    SetBitInRange(b, k, 8);
    SetBit(b, k)
  }

  function ClearByteBit(b: byte, k: nat): byte {
    ClearBitSubtracts(b, k);
    ClearBit(b, k)
  }

  function FirstOpenByte(bitmap: seq<byte>, from: nat): (j: nat)
    requires from <= |bitmap|
    ensures from <= j <= |bitmap|
    ensures forall k :: from <= k < j ==> bitmap[k] == 0xff
    ensures j < |bitmap| ==> bitmap[j] != 0xff
    decreases |bitmap| - from
  {
    if from == |bitmap| || bitmap[from] != 0xff then from else FirstOpenByte(bitmap, from + 1)
  }

  /** The page `alloc_page` picks. */
  function FreeSlot(m: Meta): (r: Option<nat>)
    ensures r.Some? ==> r.value < m.total && r.value / 8 < |m.bitmap|
  {
    var j := FirstOpenByte(m.bitmap, 0);
    if j == |m.bitmap| then None
    else
      TrailingOnesInRange(m.bitmap[j], 8);
      var id := j * 8 + TrailingOnes(m.bitmap[j]);
      if id >= m.total then None else Some(id)
  }

  function Mark(m: Meta, id: nat): Meta
    requires id / 8 < |m.bitmap|
  {
    m.(bitmap := m.bitmap[id / 8 := SetByteBit(m.bitmap[id / 8], id % 8)],
       freeCount := if m.freeCount == 0 then 0 else m.freeCount - 1)
  }

  /** `free_page`: clears the bit of an allocated page and leaves everything else alone. */
  function Unmark(m: Meta, id: nat): Meta {
    if Allocated(m, id) then
      m.(bitmap := m.bitmap[id / 8 := ClearByteBit(m.bitmap[id / 8], id % 8)],
         freeCount := m.freeCount + 1)
    else m
  }

  function Resize(bitmap: seq<byte>, n: nat): (r: seq<byte>)
    ensures |r| == n
  {
    if n <= |bitmap| then bitmap[..n] else bitmap + Zeros(n - |bitmap|)
  }

  function GrowTo(m: Meta, total: nat): Meta {
    m.(bitmap := Resize(m.bitmap, BytesFor(total)),
       freeCount := m.freeCount + (if total >= m.total then total - m.total else 0),
       total := total)
  }

  /** The reserved pages a file of this many pages has. */
  function Reserved(total: nat): (n: nat)
    ensures n <= total && n <= FIRST_DATA_PAGE
  {
    if total < FIRST_DATA_PAGE then total else FIRST_DATA_PAGE
  }

  /** A byte with its lowest n bits set. */
  function LowBits(n: nat): byte
    requires n <= FIRST_DATA_PAGE
  {
    if n == 0 then 0 else if n == 1 then 1 else if n == 2 then 3 else 7
  }

  function NewMeta(total: nat): Meta {
    Meta(total, 0, total - Reserved(total),
         if total == 0 then [] else [LowBits(Reserved(total))] + Zeros(BytesFor(total) - 1))
  }

  // ── What the operations do to the set of allocated pages ───────────────────

  lemma AllocatedCount(m: Meta)
    ensures |AllocatedSet(m)| <= m.total
    ensures |AllocatedSet(m)| == m.total <==> AllocatedSet(m) == Range(m.total)
  {
    assert AllocatedSet(m) <= Range(m.total);
    SubsetSize(AllocatedSet(m), Range(m.total));
  }

  lemma {:induction false} SubsetSize<T>(a: set<T>, b: set<T>)
    requires a <= b
    ensures |a| <= |b| && (|a| == |b| ==> a == b)
  {
    if a != {} {
      var x :| x in a;
      SubsetSize(a - {x}, b - {x});
    }
  }

  lemma SetBitmapAt(bitmap: seq<byte>, id: nat, i: nat)
    requires id / 8 < |bitmap|
    ensures BitAt(bitmap[id / 8 := SetByteBit(bitmap[id / 8], id % 8)], i) <==> i == id || BitAt(bitmap, i)
  {
    if i / 8 == id / 8 {
      SetBitAt(bitmap[id / 8], id % 8, i % 8);
    }
  }

  lemma ClearBitmapAt(bitmap: seq<byte>, id: nat, i: nat)
    requires id / 8 < |bitmap|
    ensures BitAt(bitmap[id / 8 := ClearByteBit(bitmap[id / 8], id % 8)], i) <==> i != id && BitAt(bitmap, i)
  {
    if i / 8 == id / 8 {
      ClearBitAt(bitmap[id / 8], id % 8, i % 8);
    }
  }

  lemma FullBytesAllocated(bitmap: seq<byte>, j: nat, i: nat)
    requires j <= |bitmap| && (forall k :: 0 <= k < j ==> bitmap[k] == 0xff)
    requires i < j * 8
    ensures BitAt(bitmap, i)
  {
    OnesBits(8, i % 8);
  }

  /** The lowest clear bit of the bitmap, when its first byte below 0xff is byte j. */
  lemma LowestClearBit(bitmap: seq<byte>, j: nat) returns (id: nat)
    requires j < |bitmap| && j == FirstOpenByte(bitmap, 0)
    ensures id == j * 8 + TrailingOnes(bitmap[j]) && id / 8 == j
    ensures !BitAt(bitmap, id) && forall i: nat :: i < id ==> BitAt(bitmap, i)
  {
    TrailingOnesInRange(bitmap[j], 8);
    TrailingOnesIsLowestClear(bitmap[j]);
    id := j * 8 + TrailingOnes(bitmap[j]);
    forall i: nat | i < id
      ensures BitAt(bitmap, i)
    {
      if i < j * 8 {
        FullBytesAllocated(bitmap, j, i);
      } else {
        assert i / 8 == j;
      }
    }
  }

  lemma AllocatedIsAll(m: Meta)
    requires forall i: nat :: i < m.total ==> BitAt(m.bitmap, i)
    ensures AllocatedSet(m) == Range(m.total)
  {
  }

  /** The slot found is the lowest clear bit; none found means all bits of pages are set. */
  lemma LowestFree(m: Meta)
    requires |m.bitmap| == BytesFor(m.total)
    ensures FreeSlot(m).Some? ==> !BitAt(m.bitmap, FreeSlot(m).value)
    ensures FreeSlot(m).Some? ==> forall i: nat :: i < FreeSlot(m).value ==> BitAt(m.bitmap, i)
    ensures FreeSlot(m).None? ==> forall i: nat :: i < m.total ==> BitAt(m.bitmap, i)
  {
    hide Bit, TrailingOnes, BitAt, FirstOpenByte;
    var j := FirstOpenByte(m.bitmap, 0);
    if j < |m.bitmap| {
      var id := LowestClearBit(m.bitmap, j);
    } else {
      forall i: nat | i < m.total
        ensures BitAt(m.bitmap, i)
      {
        FullBytesAllocated(m.bitmap, j, i);
      }
    }
  }

  /** `alloc_page` picks the smallest free page, and none exactly when none is free. */
  lemma FreeSlotIsSmallest(m: Meta)
    requires Exact(m)
    ensures FreeSlot(m).Some? ==> !Allocated(m, FreeSlot(m).value)
    ensures FreeSlot(m).Some? ==> forall i: nat :: i < FreeSlot(m).value ==> Allocated(m, i)
    ensures FreeSlot(m).None? ==> AllocatedSet(m) == Range(m.total)
    ensures FreeSlot(m).None? <==> m.freeCount == 0
  {
    hide FreeSlot, BitAt;
    LowestFree(m);
    AllocatedCount(m);
    if FreeSlot(m).None? {
      AllocatedIsAll(m);
    } else {
      assert FreeSlot(m).value in Range(m.total) && FreeSlot(m).value !in AllocatedSet(m);
    }
  }

  lemma ByteOfPage(m: Meta, id: nat)
    requires |m.bitmap| == BytesFor(m.total) && id < m.total
    ensures id / 8 < |m.bitmap|
  {
  }

  lemma MarkBits(m: Meta, id: nat)
    requires id / 8 < |m.bitmap|
    ensures forall i: nat :: BitAt(Mark(m, id).bitmap, i) <==> i == id || BitAt(m.bitmap, i)
  {
    hide BitAt, SetByteBit;
    forall i: nat
      ensures BitAt(Mark(m, id).bitmap, i) <==> i == id || BitAt(m.bitmap, i)
    {
      SetBitmapAt(m.bitmap, id, i);
    }
  }

  lemma OneMoreBit(m: Meta, m': Meta, id: nat)
    requires m'.total == m.total && id < m.total
    requires forall i: nat :: BitAt(m'.bitmap, i) <==> i == id || BitAt(m.bitmap, i)
    ensures AllocatedSet(m') == AllocatedSet(m) + {id}
  {
    hide BitAt;
  }

  lemma MarkAllocates(m: Meta, id: nat)
    requires Exact(m) && id < m.total && !Allocated(m, id)
    ensures Exact(Mark(m, id))
    ensures AllocatedSet(Mark(m, id)) == AllocatedSet(m) + {id}
    ensures Mark(m, id).freeCount == m.freeCount - 1
    ensures Mark(m, id).total == m.total && Mark(m, id).generation == m.generation
  {
    hide BitAt, SetByteBit;
    ByteOfPage(m, id);
    MarkBits(m, id);
    OneMoreBit(m, Mark(m, id), id);
    AllocatedCount(Mark(m, id));
  }

  lemma UnmarkFrees(m: Meta, id: nat)
    requires Exact(m) && FIRST_DATA_PAGE <= id && Allocated(m, id)
    ensures Exact(Unmark(m, id))
    ensures AllocatedSet(Unmark(m, id)) == AllocatedSet(m) - {id}
    ensures Unmark(m, id).freeCount == m.freeCount + 1
    ensures Unmark(m, id).total == m.total && Unmark(m, id).generation == m.generation
  {
    var m' := Unmark(m, id);
    forall i: nat
      ensures BitAt(m'.bitmap, i) <==> i != id && BitAt(m.bitmap, i)
    {
      ClearBitmapAt(m.bitmap, id, i);
    }
    assert AllocatedSet(m') == AllocatedSet(m) - {id};
  }

  lemma GrowKeepsAllocated(m: Meta, total: nat)
    requires Exact(m) && total >= m.total
    ensures Exact(GrowTo(m, total))
    ensures AllocatedSet(GrowTo(m, total)) == AllocatedSet(m)
    ensures GrowTo(m, total).freeCount == m.freeCount + (total - m.total)
  {
    var m' := GrowTo(m, total);
    forall i: nat
      ensures BitAt(m'.bitmap, i) <==> BitAt(m.bitmap, i)
    {
      if |m.bitmap| <= i / 8 < |m'.bitmap| {
        HighBitsClear(0, 0, i % 8);
      }
    }
    assert AllocatedSet(m') == AllocatedSet(m);
  }

  lemma LowBitsOnes(n: nat)
    requires n <= FIRST_DATA_PAGE
    ensures LowBits(n) == Ones(n)
  {
  }

  lemma NewMetaBit(total: nat, i: nat)
    ensures BitAt(NewMeta(total).bitmap, i) <==> i < Reserved(total)
  {
    hide Bit, Ones;
    var m := NewMeta(total);
    if i / 8 < |m.bitmap| {
      if i / 8 == 0 {
        LowBitsOnes(Reserved(total));
        OnesBits(Reserved(total), i);
      } else {
        HighBitsClear(0, 0, i % 8);
      }
    }
  }

  /** A new bitmap marks exactly the reserved pages of the file, fewer than three in a file that
      has fewer, and counts the others as free. */
  lemma NewMetaExact(total: nat)
    ensures
      var m := NewMeta(total);
      && |m.bitmap| == BytesFor(total) && (forall i: nat :: total <= i ==> !BitAt(m.bitmap, i))
      && AllocatedSet(m) == Range(Reserved(total)) && m.freeCount == total - |AllocatedSet(m)|
      && (total >= 4 ==> Exact(m))
  {
    hide BitAt, LowBits;
    var m := NewMeta(total);
    forall i: nat
      ensures BitAt(m.bitmap, i) <==> i < Reserved(total)
    {
      NewMetaBit(total, i);
    }
    assert AllocatedSet(m) == Range(Reserved(total));
  }

  // ── The mutable metadata page ──────────────────────────────────────────────

  class MetaPage {
    var totalPages: nat
    var generation: nat
    var freeCount: nat
    var bitmap: seq<byte>

    function View(): Meta
      reads this
    {
      Meta(totalPages, generation, freeCount, bitmap)
    }

    constructor FromView(m: Meta)
      ensures View() == m
    {
      totalPages, generation, freeCount, bitmap := m.total, m.generation, m.freeCount, m.bitmap;
    }

    constructor NewForCapacity(total: nat)
      ensures View() == NewMeta(total)
    {
      var bytes := Zeros(BytesFor(total));
      var reserved := 0;
      var count := if total < FIRST_DATA_PAGE then total else FIRST_DATA_PAGE;
      while reserved < count
        invariant reserved <= count && |bytes| == BytesFor(total)
        invariant count > 0 ==> bytes[0] == LowBits(reserved)
        invariant forall k :: 0 < k < |bytes| ==> bytes[k] == 0
      {
        LowBitsOnes(reserved);
        LowBitsOnes(reserved + 1);
        bytes := bytes[reserved / 8 := SetByteBit(bytes[reserved / 8], reserved % 8)];
        reserved := reserved + 1;
      }
      totalPages, generation, freeCount, bitmap := total, 0, total - count, bytes;
      assert bytes == if total == 0 then [] else [LowBits(count)] + Zeros(BytesFor(total) - 1);
    }

    method AllocPage() returns (r: Option<nat>)
      modifies this
      ensures r == FreeSlot(old(View()))
      ensures View() == if r.Some? then Mark(old(View()), r.value) else old(View())
    {
      var byteIdx := 0;
      while byteIdx < |bitmap|
        invariant byteIdx <= |bitmap|
        invariant View() == old(View())
        invariant FirstOpenByte(bitmap, 0) == FirstOpenByte(bitmap, byteIdx)
      {
        if bitmap[byteIdx] != 0xff {
          TrailingOnesInRange(bitmap[byteIdx], 8);
          var bit := TrailingOnes(bitmap[byteIdx]);
          var pageId := byteIdx * 8 + bit;
          if pageId >= totalPages {
            break;
          }
          bitmap := bitmap[byteIdx := SetByteBit(bitmap[byteIdx], bit)];
          freeCount := if freeCount == 0 then 0 else freeCount - 1;
          assert pageId / 8 == byteIdx && pageId % 8 == bit;
          return Some(pageId);
        }
        byteIdx := byteIdx + 1;
      }
      return None;
    }

    method FreePage(id: nat) returns (freed: bool)
      requires |bitmap| == BytesFor(totalPages)
      modifies this
      ensures freed <==> Allocated(old(View()), id)
      ensures View() == Unmark(old(View()), id)
    {
      if id >= totalPages {
        return false;
      }
      var byteIdx, bit := id / 8, id % 8;
      if !Bit(bitmap[byteIdx], bit) {
        return false;
      }
      bitmap := bitmap[byteIdx := ClearByteBit(bitmap[byteIdx], bit)];
      freeCount := freeCount + 1;
      return true;
    }

    method GrowPages(newTotal: nat)
      modifies this
      ensures View() == GrowTo(old(View()), newTotal)
    {
      bitmap := Resize(bitmap, BytesFor(newTotal));
      var added := if newTotal >= totalPages then newTotal - totalPages else 0;
      freeCount := freeCount + added;
      totalPages := newTotal;
    }
  }
}
