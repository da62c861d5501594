/** The slot table of src/sub_allocator.rs: one big page per slot with a 64-bit mask of its
    sub-pages, and tombstones where a big page has been given back. */
module SubSlots {
  import opened Bytes
  import opened Bits
  import opened Results
  import opened Sorting
  import opened RawAllocation

  /** A big page checked out from the pager and the mask of its live sub-pages. */
  datatype Big = Big(id: nat, used: nat)

  type Slots = seq<Option<Big>>

  datatype SubId = SubId(slot: nat, sub: nat)

  /** The derived order of sub-page ids: slot first. */
  predicate SubLeq(x: SubId, y: SubId) {
    x.slot < y.slot || (x.slot == y.slot && x.sub <= y.sub)
  }

  /** `full_mask`: all n bits, without shifting a 64-bit word by 64. */
  function FullMask(n: nat): nat {
    if n == 64 then U64_LIMIT - 1 else Pow2(n) - 1
  }

  predicate Addressable(n: nat, slots: Slots, id: SubId) {
    id.sub < n && id.slot < |slots| && slots[id.slot].Some?
  }

  predicate Live(slots: Slots, id: SubId) {
    id.slot < |slots| && slots[id.slot].Some? && Bit(slots[id.slot].value.used, id.sub)
  }

  ghost function BigPages(slots: Slots): set<nat> {
    set i: nat | i < |slots| && slots[i].Some? :: slots[i].value.id
  }

  /** Occupied slots have a nonzero mask within the full mask and distinct big pages. */
  ghost predicate SlotsOk(n: nat, slots: Slots) {
    && (forall i: nat :: i < |slots| && slots[i].Some? ==> 0 < slots[i].value.used <= FullMask(n))
    && forall i: nat, j: nat :: i < j < |slots| && slots[i].Some? && slots[j].Some? ==>
         slots[i].value.id != slots[j].value.id
  }

  // ── Searching ──────────────────────────────────────────────────────────────

  /** The first big page with a free sub-page. */
  function FirstPartial(slots: Slots, full: nat): (i: nat)
    ensures i <= |slots|
    ensures forall k :: 0 <= k < i ==> slots[k].None? || slots[k].value.used == full
    ensures i < |slots| ==> slots[i].Some? && slots[i].value.used != full
  {
    if slots == [] || (slots[0].Some? && slots[0].value.used != full) then 0
    else 1 + FirstPartial(slots[1..], full)
  }

  function FirstTombstone(slots: Slots): (i: nat)
    ensures i <= |slots|
    ensures forall k :: 0 <= k < i ==> slots[k].Some?
    ensures i < |slots| ==> slots[i].None?
  {
    if slots == [] || slots[0].None? then 0 else 1 + FirstTombstone(slots[1..])
  }

  // ── Changing one slot ──────────────────────────────────────────────────────

  /** The lowest clear bit of a partial big page is taken. */
  function TakeBit(slots: Slots, i: nat): (Slots, SubId)
    requires i < |slots| && slots[i].Some?
  {
    var big := slots[i].value;
    var bit := TrailingOnes(big.used);
    (slots[i := Some(big.(used := SetBit(big.used, bit)))], SubId(i, bit))
  }

  /** A fresh big page with its first sub-page taken, in the first tombstone or at the end. */
  function AddBig(slots: Slots, id: nat): (Slots, SubId) {
    var i := FirstTombstone(slots);
    if i < |slots| then (slots[i := Some(Big(id, 1))], SubId(i, 0))
    else (slots + [Some(Big(id, 1))], SubId(|slots|, 0))
  }

  /** One bit is cleared; a big page without live sub-pages becomes a tombstone and is named. */
  function ClearOne(slots: Slots, id: SubId): (Slots, Option<nat>) {
    if id.slot >= |slots| || slots[id.slot].None? then (slots, None)
    else
      var big := slots[id.slot].value;
      var used := ClearBit(big.used, id.sub);
      if used == 0 then (slots[id.slot := None], Some(big.id))
      else (slots[id.slot := Some(big.(used := used))], None)
  }

  /** Several bits; the big pages to give back, in the order they became empty. */
  function ClearAll(slots: Slots, ids: seq<SubId>): (Slots, seq<nat>)
    decreases |ids|
  {
    if ids == [] then (slots, [])
    else
      var (slots1, emptied) := ClearOne(slots, ids[0]);
      var (slots2, rest) := ClearAll(slots1, ids[1..]);
      (slots2, (if emptied.Some? then [emptied.value] else []) + rest)
  }

  function CheckSub(n: nat, slots: Slots, id: SubId): Result<()> {
    if id.sub >= n then Err(OutOfBounds)
    else if id.slot >= |slots| then Err(OutOfBounds)
    else if slots[id.slot].None? then Err(DoubleFree)
    else if !Bit(slots[id.slot].value.used, id.sub) then Err(DoubleFree)
    else Ok(())
  }

  /** The first id, in the order given, that is not live. */
  function CheckSubs(n: nat, slots: Slots, ids: seq<SubId>): Result<()> {
    if ids == [] then Ok(())
    else
      match CheckSub(n, slots, ids[0])
      case Err(e) => Err(e)
      case Ok(_) => CheckSubs(n, slots, ids[1..])
  }

  // ── Masks ──────────────────────────────────────────────────────────────────

  lemma FullMaskIsOnes(n: nat)
    requires n <= 64
    ensures FullMask(n) == Ones(n)
  {
    hide Pow2;
    Pow64();
  }

  lemma Pow64()
    ensures Pow2(64) == U64_LIMIT
  {
    hide Pow2;
    Pow8();
    PowSum(8, 8);
    PowSum(16, 16);
    PowSum(32, 32);
  }

  lemma Pow8()
    ensures Pow2(8) == 0x100
  {
  }

  lemma {:induction false} PowSum(a: nat, b: nat)
    ensures Pow2(a + b) == Pow2(a) * Pow2(b)
  {
    if a > 0 {
      PowSum(a - 1, b);
    }
  }

  /** Masks within the full mask are the n-bit words, and fit 64 bits. */
  lemma FullMaskBound(n: nat, used: nat)
    requires n <= 64
    ensures used <= FullMask(n) <==> used < Pow2(n)
    ensures FullMask(n) < U64_LIMIT
  {
    FullMaskIsOnes(n);
    PowUpTo64(n);
  }

  lemma {:induction false} PowUpTo64(n: nat)
    requires n <= 64
    ensures Pow2(n) <= U64_LIMIT
    decreases 64 - n
  {
    if n == 64 {
      FullMaskIsOnes(64);
    } else {
      PowUpTo64(n + 1);
    }
  }

  /** Live ids have a sub-index within the page: what the checks call live is what the mask says. */
  lemma LiveChecks(n: nat, slots: Slots, id: SubId)
    requires n <= 64 && SlotsOk(n, slots)
    ensures Live(slots, id) ==> id.sub < n
    ensures CheckSub(n, slots, id).Ok? <==> Live(slots, id)
  {
    hide FullMask, Pow2, Bit;
    if Live(slots, id) && n <= id.sub {
      FullMaskBound(n, slots[id.slot].value.used);
      HighBitsClear(slots[id.slot].value.used, n, id.sub);
    }
  }

  lemma TakenBit(n: nat, used: nat)
    requires n <= 64 && 0 < used <= FullMask(n) && used != FullMask(n)
    ensures
      var bit := TrailingOnes(used);
      && bit < n && !Bit(used, bit) && 0 < SetBit(used, bit) <= FullMask(n)
      && forall k: nat :: Bit(SetBit(used, bit), k) <==> k == bit || Bit(used, k)
  {
    hide FullMask, Pow2, Bit, SetBit, TrailingOnes;
    var bit := TrailingOnes(used);
    FullMaskIsOnes(n);
    FullMaskBound(n, used);
    FullMaskBound(n, SetBit(used, bit));
    TrailingOnesInRange(used, n);
    TrailingOnesIsLowestClear(used);
    SetBitInRange(used, bit, n);
    SetBitAdds(used, bit);
    forall k: nat
      ensures Bit(SetBit(used, bit), k) <==> k == bit || Bit(used, k)
    {
      SetBitAt(used, bit, k);
    }
  }

  lemma ClearedBit(used: nat, bit: nat)
    requires Bit(used, bit)
    ensures ClearBit(used, bit) < used
    ensures forall k: nat :: Bit(ClearBit(used, bit), k) <==> k != bit && Bit(used, k)
  {
    ClearBitSubtracts(used, bit);
    forall k: nat
      ensures Bit(ClearBit(used, bit), k) <==> k != bit && Bit(used, k)
    {
      ClearBitAt(used, bit, k);
    }
  }

  lemma ZeroHasNoBits(k: nat)
    ensures !Bit(0, k)
  {
    HighBitsClear(0, 0, k);
  }

  // ── What the changes do to the live ids ────────────────────────────────────

  lemma TakeBitEffect(n: nat, slots: Slots, i: nat)
    requires n <= 64 && SlotsOk(n, slots) && i < |slots| && slots[i].Some? && slots[i].value.used != FullMask(n)
    ensures
      var (slots', id) := TakeBit(slots, i);
      && SlotsOk(n, slots') && BigPages(slots') == BigPages(slots)
      && id.sub < n && !Live(slots, id)
      && forall x :: Live(slots', x) <==> x == id || Live(slots, x)
  {
    hide TrailingOnes, SetBit, Bit, FullMask;
    var (slots', id) := TakeBit(slots, i);
    TakenBit(n, slots[i].value.used);
    forall j: nat | j < |slots|
      ensures slots'[j].Some? <==> slots[j].Some?
      ensures slots[j].Some? ==> slots'[j].value.id == slots[j].value.id
    {
    }
    SameBigPages(slots, slots');
  }

  lemma SameBigPages(slots: Slots, slots': Slots)
    requires |slots| == |slots'|
    requires forall j: nat :: j < |slots| ==> (slots'[j].Some? <==> slots[j].Some?)
    requires forall j: nat :: j < |slots| && slots[j].Some? ==> slots'[j].value.id == slots[j].value.id
    ensures BigPages(slots') == BigPages(slots)
  {
  }

  lemma OneBit(n: nat, k: nat)
    requires 0 < n <= 64
    ensures 1 <= FullMask(n)
    ensures Bit(1, k) <==> k == 0
  {
    FullMaskBound(n, 1);
    assert Pow2(n) == 2 * Pow2(n - 1);
    if k > 0 {
      ZeroHasNoBits(k - 1);
    }
  }

  lemma AddBigEffect(n: nat, slots: Slots, big: nat)
    requires 0 < n <= 64 && SlotsOk(n, slots) && big !in BigPages(slots)
    ensures
      var (slots', id) := AddBig(slots, big);
      && SlotsOk(n, slots') && BigPages(slots') == BigPages(slots) + {big}
      && id.sub < n && !Live(slots, id)
      && forall x :: Live(slots', x) <==> x == id || Live(slots, x)
  {
    hide FullMask, Bit, FirstTombstone;
    var (slots', id) := AddBig(slots, big);
    OneBit(n, 0);
    forall k: nat
      ensures Bit(1, k) <==> k == 0
    {
      OneBit(n, k);
    }
    assert slots'[id.slot] == Some(Big(big, 1));
    assert forall j: nat :: j < |slots'| && j != id.slot ==> j < |slots| && slots'[j] == slots[j];
    assert forall j: nat :: j < |slots| && slots[j].Some? ==> slots[j].value.id in BigPages(slots) && j != id.slot;
    assert forall x :: x in BigPages(slots') <==> x == big || x in BigPages(slots);
    forall i: nat, j: nat | i < j < |slots'| && slots'[i].Some? && slots'[j].Some?
      ensures slots'[i].value.id != slots'[j].value.id
    {
      assert i == id.slot || slots'[i] == slots[i];
      assert j == id.slot || slots'[j] == slots[j];
    }
  }

  /** No slot was filled and no big page replaced. */
  ghost predicate Shrunk(slots: Slots, slots': Slots) {
    && |slots'| == |slots|
    && forall i: nat :: i < |slots| && slots'[i].Some? ==> slots[i].Some? && slots'[i].value.id == slots[i].value.id
  }

  lemma ClearOneEffect(n: nat, slots: Slots, id: SubId)
    requires SlotsOk(n, slots) && Live(slots, id)
    ensures
      var (slots', emptied) := ClearOne(slots, id);
      && SlotsOk(n, slots') && Shrunk(slots, slots')
      && (forall x :: Live(slots', x) <==> x != id && Live(slots, x))
      && BigPages(slots') == BigPages(slots) - (if emptied.Some? then {emptied.value} else {})
      && (emptied.Some? ==> emptied.value in BigPages(slots))
  {
    hide ClearBit, Bit, FullMask;
    var (slots', emptied) := ClearOne(slots, id);
    var big := slots[id.slot].value;
    ClearedBit(big.used, id.sub);
    forall k: nat
      ensures !Bit(0, k)
    {
      ZeroHasNoBits(k);
    }
    assert big.id in BigPages(slots);
    if emptied.None? {
      SameBigPages(slots, slots');
    } else {
      assert forall j: nat :: j < |slots| && j != id.slot ==> slots'[j] == slots[j];
      assert forall j: nat :: j < |slots'| && slots'[j].Some? ==> slots'[j].value.id in BigPages(slots');
    }
  }

  ghost predicate AllLive(slots: Slots, ids: seq<SubId>) {
    Distinct(ids) && forall x :: x in ids ==> Live(slots, x)
  }

  lemma AllLiveTail(n: nat, slots: Slots, ids: seq<SubId>)
    requires SlotsOk(n, slots) && AllLive(slots, ids) && ids != []
    ensures Live(slots, ids[0]) && AllLive(ClearOne(slots, ids[0]).0, ids[1..])
  {
    hide Live, ClearOne, SlotsOk;
    assert ids[0] in ids;
    ClearOneEffect(n, slots, ids[0]);
    var rest := ids[1..];
    forall x | x in rest
      ensures x != ids[0] && x in ids
    {
      var j :| 0 <= j < |rest| && rest[j] == x;
      assert ids[j + 1] == x;
    }
  }

  /** What is left after the live ids in `ids` have been cleared, in whatever order. */
  ghost predicate Cleared(n: nat, slots: Slots, ids: seq<SubId>, slots': Slots) {
    && SlotsOk(n, slots') && Shrunk(slots, slots')
    && forall x :: Live(slots', x) <==> Live(slots, x) && x !in ids
  }

  lemma ClearedTail(n: nat, slots: Slots, slots1: Slots, ids: seq<SubId>, slots2: Slots)
    requires ids != [] && Shrunk(slots, slots1)
    requires forall x :: Live(slots1, x) <==> x != ids[0] && Live(slots, x)
    requires Cleared(n, slots1, ids[1..], slots2)
    ensures Cleared(n, slots, ids, slots2)
  {
    hide Live, SlotsOk;
    assert forall x :: x in ids <==> x == ids[0] || x in ids[1..];
  }

  /** The masks after clearing depend on the set of cleared ids only. */
  lemma ClearedOnce(n: nat, slots: Slots, ids: seq<SubId>, s1: Slots, ids': seq<SubId>, s2: Slots)
    requires Cleared(n, slots, ids, s1) && Cleared(n, slots, ids', s2)
    requires forall x :: x in ids <==> x in ids'
    ensures s1 == s2
  {
    hide Bit, FullMask;
    forall i: nat | i < |s1|
      ensures s1[i] == s2[i]
    {
      if s1[i].Some? {
        SlotSame(n, slots, s1, s2, i);
      } else if s2[i].Some? {
        SlotSame(n, slots, s2, s1, i);
      }
    }
  }

  lemma SlotSame(n: nat, slots: Slots, s1: Slots, s2: Slots, i: nat)
    requires SlotsOk(n, s1) && Shrunk(slots, s1) && Shrunk(slots, s2)
    requires forall x :: Live(s1, x) <==> Live(s2, x)
    requires i < |s1| && s1[i].Some?
    ensures s1[i] == s2[i]
  {
    hide Bit, FullMask;
    var k := SomeBit(s1[i].value.used);
    assert Live(s1, SubId(i, k));
    assert Live(s2, SubId(i, k));
    forall b: nat
      ensures Bit(s1[i].value.used, b) <==> Bit(s2[i].value.used, b)
    {
      assert Live(s1, SubId(i, b)) <==> Live(s2, SubId(i, b));
    }
    BitsDetermine(s1[i].value.used, s2[i].value.used);
  }

  lemma ClearedNothing(n: nat, slots: Slots)
    requires SlotsOk(n, slots)
    ensures Cleared(n, slots, [], slots)
  {
  }

  /** Clearing several: the big pages named are those that became empty, each named once. */
  lemma {:induction false} ClearAllEffect(n: nat, slots: Slots, ids: seq<SubId>)
    requires SlotsOk(n, slots) && AllLive(slots, ids)
    ensures
      var (slots', emptied) := ClearAll(slots, ids);
      && Cleared(n, slots, ids, slots')
      && BigPages(slots') <= BigPages(slots)
      && Distinct(emptied) && ToSet(emptied) == BigPages(slots) - BigPages(slots')
      && |emptied| <= |ids|
    decreases |ids|
  {
    hide Live, SlotsOk, ClearOne, BigPages, Cleared, Shrunk, AllLive;
    if ids == [] {
      ClearedNothing(n, slots);
      assert ToSet([]) == {};
    } else {
      AllLiveTail(n, slots, ids);
      ClearOneEffect(n, slots, ids[0]);
      var (slots1, one) := ClearOne(slots, ids[0]);
      ClearAllEffect(n, slots1, ids[1..]);
      var (slots2, rest) := ClearAll(slots1, ids[1..]);
      ClearedTail(n, slots, slots1, ids, slots2);
      NamedOnce(BigPages(slots), BigPages(slots1), BigPages(slots2), one, rest);
    }
  }

  lemma NamedOnce(before: set<nat>, mid: set<nat>, after: set<nat>, one: Option<nat>, rest: seq<nat>)
    requires mid == before - (if one.Some? then {one.value} else {}) && after <= mid
    requires one.Some? ==> one.value in before
    requires Distinct(rest) && ToSet(rest) == mid - after
    ensures
      var all := (if one.Some? then [one.value] else []) + rest;
      Distinct(all) && ToSet(all) == before - after
  {
    var all := (if one.Some? then [one.value] else []) + rest;
    assert forall x :: x in all <==> x in rest || (one.Some? && x == one.value);
    assert forall x :: x in ToSet(rest) <==> x in rest;
    assert forall x :: x in ToSet(all) <==> x in before - after;
    forall i, j | 0 <= i < j < |all|
      ensures all[i] != all[j]
    {
      if one.Some? && i == 0 {
        assert rest[j - 1] in ToSet(rest);
      }
    }
  }

  lemma OccupiedIsLive(n: nat, slots: Slots, i: nat) returns (k: nat)
    requires SlotsOk(n, slots) && i < |slots| && slots[i].Some?
    ensures Live(slots, SubId(i, k))
  {
    k := SomeBit(slots[i].value.used);
  }

  /** Without a live sub-page no big page is checked out. */
  lemma NothingLive(n: nat, slots: Slots)
    requires SlotsOk(n, slots) && forall x :: !Live(slots, x)
    ensures BigPages(slots) == {}
  {
    hide Live, SlotsOk;
    forall i: nat | i < |slots|
      ensures slots[i].None?
    {
      if slots[i].Some? {
        var k := OccupiedIsLive(n, slots, i);
      }
    }
  }

  // ── Validation ─────────────────────────────────────────────────────────────

  lemma {:induction false} CheckSubsDecides(n: nat, slots: Slots, ids: seq<SubId>)
    requires n <= 64 && SlotsOk(n, slots)
    ensures CheckSubs(n, slots, ids).Ok? <==> forall x :: x in ids ==> Live(slots, x)
  {
    hide CheckSub, Live, SlotsOk;
    if ids != [] {
      LiveChecks(n, slots, ids[0]);
      CheckSubsDecides(n, slots, ids[1..]);
      assert ids[0] in ids;
      assert forall x :: x in ids <==> x == ids[0] || x in ids[1..];
    }
  }

  lemma SubOrder()
    ensures TotalOrder(SubLeq)
  {
  }

  /** Sorting, comparing neighbours and checking each id decides: distinct and all live. */
  lemma SortedLive(n: nat, slots: Slots, ids: seq<SubId>)
    requires n <= 64 && SlotsOk(n, slots)
    ensures AllLive(slots, ids) <==>
            !AdjacentEqual(Sort(ids, SubLeq)) && CheckSubs(n, slots, Sort(ids, SubLeq)).Ok?
    ensures AllLive(slots, ids) ==> AllLive(slots, Sort(ids, SubLeq))
    ensures forall x :: x in Sort(ids, SubLeq) <==> x in ids
  {
    hide Sort, AdjacentEqual, Live, Distinct, SlotsOk;
    var sorted := Sort(ids, SubLeq);
    SubOrder();
    SortedTest(ids, SubLeq);
    SortSorts(ids, SubLeq);
    AdjacentDecides(sorted, SubLeq);
    CheckSubsDecides(n, slots, sorted);
    forall x: SubId
      ensures x in sorted <==> x in ids
    {
      SortMembers(ids, SubLeq, x);
    }
  }

  // ── Which sub-page is next ─────────────────────────────────────────────────

  /** A sub-page of a big page the allocator has that nobody holds. */
  predicate Spare(n: nat, slots: Slots, x: SubId) {
    Addressable(n, slots, x) && !Live(slots, x)
  }

  /** The first of them, in slot order. */
  ghost predicate FirstSpare(n: nat, slots: Slots, x: SubId) {
    Spare(n, slots, x) && forall y :: Spare(n, slots, y) ==> SubLeq(x, y)
  }

  /** The first tombstone, or the end of the table. */
  ghost predicate FirstHole(slots: Slots, i: nat) {
    && i <= |slots| && (forall j :: 0 <= j < i ==> slots[j].Some?)
    && (i < |slots| ==> slots[i].None?)
  }

  /** The same big pages in the same slots. */
  predicate SameBigs(slots: Slots, slots': Slots) {
    && |slots'| == |slots|
    && forall i :: 0 <= i < |slots| ==>
         (slots'[i].Some? <==> slots[i].Some?) && (slots[i].Some? ==> slots'[i].value.id == slots[i].value.id)
  }

  /** The table with this big page in slot i, which was a tombstone or the end. */
  function Filled(slots: Slots, i: nat, big: nat): Slots
    requires i <= |slots|
  {
    slots[..i] + [Some(Big(big, 1))] + (if i < |slots| then slots[i + 1..] else [])
  }

  lemma FullHasBits(n: nat, b: nat)
    requires n <= 64 && b < n
    ensures Bit(FullMask(n), b)
  {
    FullMaskIsOnes(n);
    OnesBits(n, b);
  }

  /** No big page is partly used. */
  lemma NoSpare(n: nat, slots: Slots, x: SubId)
    requires n <= 64 && FirstPartial(slots, FullMask(n)) == |slots|
    ensures !Spare(n, slots, x)
  {
    hide FullMask, Bit;
    if Addressable(n, slots, x) {
      FullHasBits(n, x.sub);
    }
  }

  /** The lowest clear bit of the first partly used big page. */
  lemma TakesFirstSpare(n: nat, slots: Slots)
    requires n <= 64 && SlotsOk(n, slots) && FirstPartial(slots, FullMask(n)) < |slots|
    ensures FirstSpare(n, slots, TakeBit(slots, FirstPartial(slots, FullMask(n))).1)
  {
    hide FullMask, Bit, SetBit, TrailingOnes;
    var i := FirstPartial(slots, FullMask(n));
    var x := TakeBit(slots, i).1;
    TakenBit(n, slots[i].value.used);
    forall y | Spare(n, slots, y)
      ensures SubLeq(x, y)
    {
      if y.slot < i {
        FullHasBits(n, y.sub);
      } else if y.slot == i {
        TrailingOnesIsLowestClear(slots[i].value.used);
      }
    }
  }

  /** A fresh big page fills the first hole. */
  lemma AddBigFills(slots: Slots, big: nat)
    ensures
      var h := FirstTombstone(slots);
      AddBig(slots, big) == (Filled(slots, h, big), SubId(h, 0)) && FirstHole(slots, h)
  {
    var h := FirstTombstone(slots);
    if h < |slots| {
      assert slots[h := Some(Big(big, 1))] == Filled(slots, h, big);
    } else {
      assert slots + [Some(Big(big, 1))] == Filled(slots, h, big);
    }
  }

  lemma FirstIsSpare(n: nat, slots: Slots, x: SubId)
    requires FirstSpare(n, slots, x)
    ensures Spare(n, slots, x)
  {
  }

  lemma TakeBitSame(slots: Slots, i: nat)
    requires i < |slots| && slots[i].Some?
    ensures SameBigs(slots, TakeBit(slots, i).0)
  {
    hide SetBit, TrailingOnes;
  }

  lemma FilledPages(slots: Slots, i: nat, big: nat)
    requires FirstHole(slots, i)
    ensures BigPages(Filled(slots, i, big)) == BigPages(slots) + {big}
  {
    var slots' := Filled(slots, i, big);
    assert slots'[i] == Some(Big(big, 1));
    assert forall j: nat :: j < |slots| && j != i ==> slots'[j] == slots[j];
    assert forall x :: x in BigPages(slots') <==> x == big || x in BigPages(slots);
  }
}
