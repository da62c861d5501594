/** What the sub-page allocator answers when it refuses, and exactly when. */
module SubRefusals {
  import opened Bytes
  import opened Bits
  import opened Results
  import opened Metadata
  import opened Sorting
  import opened PagerSpec
  import opened Ownership
  import opened Safety
  import opened RawAllocation
  import opened Entries
  import opened Runs
  import opened Accounting
  import opened SubSlots
  import opened SubAllocation
  import opened SubSafety
  import opened SubRuns

  /** No slot of the table has this id. */
  predicate Beyond(n: nat, slots: Slots, x: SubId) {
    x.sub >= n || x.slot >= |slots|
  }

  lemma CheckAnswers(n: nat, slots: Slots, x: SubId)
    requires n <= 64 && SlotsOk(n, slots)
    ensures
      CheckSub(n, slots, x) ==
      if Beyond(n, slots, x) then Err(OutOfBounds) else if !SubSlots.Live(slots, x) then Err(DoubleFree) else Ok(())
    ensures SubSlots.Live(slots, x) ==> !Beyond(n, slots, x)
  {
    hide Bit, FullMask;
    LiveChecks(n, slots, x);
  }

  /** The only live sub-page of its big page. */
  ghost predicate Alone(slots: Slots, x: SubId) {
    SubSlots.Live(slots, x) && forall y :: SubSlots.Live(slots, y) && y.slot == x.slot ==> y == x
  }

  lemma EmptiedWhenAlone(n: nat, slots: Slots, x: SubId)
    requires SlotsOk(n, slots) && SubSlots.Live(slots, x)
    ensures ClearOne(slots, x).1.Some? <==> Alone(slots, x)
  {
    hide Bit, ClearBit, FullMask;
    ClearOneEffect(n, slots, x);
    var (slots', emptied) := ClearOne(slots, x);
    if emptied.Some? {
      forall y | SubSlots.Live(slots, y) && y.slot == x.slot
        ensures y == x
      {
        assert !SubSlots.Live(slots', y);
      }
    } else {
      var used := slots'[x.slot].value.used;
      var k := SomeBit(used);
      assert SubSlots.Live(slots', SubId(x.slot, k));
      assert SubSlots.Live(slots, SubId(x.slot, k));
    }
  }

  /** `free` tells an id the table has no slot for from one that is not live. A live sub-page can be
      freed unless its big page becomes empty and there is no mapping to release it through. */
  lemma SubFreeAnswers(g: Geometry, n: nat, s: SubSys, x: SubId, a: Abs)
    requires SubSteady(g, n, s, a) && n <= 64 && s.inner.mem.meta.generation + 1 < U64_LIMIT
    ensures
      var r := SubFree(g, n, s, x).1;
      && (r == Err(OutOfBounds) <==> Beyond(n, s.slots, x))
      && (r == Err(DoubleFree) <==> !Beyond(n, s.slots, x) && !SubSlots.Live(s.slots, x))
      && (r == Err(Unavailable) <==> Alone(s.slots, x) && !s.inner.mapped)
      && (r.Ok? <==> SubSlots.Live(s.slots, x) && (Alone(s.slots, x) ==> s.inner.mapped))
  {
    hide SubSteady, Steady, SubSlots.Live, SlotsOk, BigPages, Regular, ClearOne, Free, Beyond, CheckSub, Alone, Shrunk, Held,
         AllocatedSet, Released;
    SubParts(g, n, s, a);
    CheckAnswers(n, s.slots, x);
    AloneLive(s.slots, x);
    if SubSlots.Live(s.slots, x) {
      EmptiedWhenAlone(n, s.slots, x);
      ClearOneEffect(n, s.slots, x);
      var emptied := ClearOne(s.slots, x).1;
      if emptied.Some? {
        ReleaseAnswers(g, s.inner, emptied.value, a);
      }
    }
  }

  lemma AloneLive(slots: Slots, x: SubId)
    ensures Alone(slots, x) ==> SubSlots.Live(slots, x)
  {
  }

  lemma ReleaseAnswers(g: Geometry, s: Sys, id: nat, a: Abs)
    requires Steady(g, s, a) && id in Regular(Held(s))
    ensures
      var r := Free(g, Begin(s), id).1;
      && (r == Err(Unavailable) <==> !s.mapped) && (r.Ok? <==> s.mapped)
  {
    hide Steady, Regular, Held, Commit, Unmark, AllocatedSet, Referenced, Exact;
    RegularFacts(g, s, a, id);
    CommitFrame(g, WithMeta(Begin(s), Unmark(s.mem.meta, id)));
  }

  // ── Several at once ────────────────────────────────────────────────────────

  /** The first id in order that is not live. */
  ghost predicate FirstDead(slots: Slots, ids: seq<SubId>, x: SubId) {
    x in ids && !SubSlots.Live(slots, x) && forall y :: y in ids && !SubSlots.Live(slots, y) ==> SubLeq(x, y)
  }

  lemma {:induction false} ChecksAnswer(n: nat, slots: Slots, ids: seq<SubId>)
    requires n <= 64 && SlotsOk(n, slots) && Sorted(ids, SubLeq)
    ensures forall x :: FirstDead(slots, ids, x) ==>
              CheckSubs(n, slots, ids) == Err(if Beyond(n, slots, x) then OutOfBounds else DoubleFree)
    ensures CheckSubs(n, slots, ids).Ok? <==> forall x :: x in ids ==> SubSlots.Live(slots, x)
  {
    hide SubSlots.Live, SlotsOk, CheckSub, Beyond;
    if ids != [] {
      CheckAnswers(n, slots, ids[0]);
      assert ids[0] in ids;
      assert forall x :: x in ids <==> x == ids[0] || x in ids[1..];
      assert forall x :: x in ids[1..] ==> SubLeq(ids[0], x);
      ChecksAnswer(n, slots, ids[1..]);
      forall x | FirstDead(slots, ids, x)
        ensures CheckSubs(n, slots, ids) == Err(if Beyond(n, slots, x) then OutOfBounds else DoubleFree)
      {
        if SubSlots.Live(slots, ids[0]) {
          assert FirstDead(slots, ids[1..], x);
        } else {
          assert SubLeq(x, ids[0]) && SubLeq(ids[0], x);
        }
      }
    }
  }

  /** `free_bulk`: first a repeated id, then the first one in order that is not live, which is beyond
      the table or has been freed. */
  lemma SubFreeBulkAnswers(g: Geometry, n: nat, s: SubSys, ids: seq<SubId>, a: Abs)
    requires SubSteady(g, n, s, a) && n <= 64 && s.inner.mem.meta.generation + |ids| < U64_LIMIT
    ensures
      var r := SubFreeBulk(g, n, s, ids).1;
      && (ids != [] && !Distinct(ids) ==> r == Err(DoubleFree))
      && (Distinct(ids) ==> forall x :: FirstDead(s.slots, ids, x) ==>
            r == Err(if Beyond(n, s.slots, x) then OutOfBounds else DoubleFree))
      && (AllLive(s.slots, ids) && s.inner.mapped ==> r.Ok?)
  {
    hide SubSteady, SubSlots.Live, SlotsOk, Sort, AdjacentEqual, CheckSubs, ClearAll, ReleaseAll, Beyond, FirstDead, Distinct,
         AllLive, Freed, Released;
    SubParts(g, n, s, a);
    var sorted := Sort(ids, SubLeq);
    SubOrder();
    SortedTest(ids, SubLeq);
    SortSorts(ids, SubLeq);
    ChecksAnswer(n, s.slots, sorted);
    if s.inner.mapped {
      SubFreeBulkExact(g, n, s, ids, a);
    }
    forall x | FirstDead(s.slots, ids, x)
      ensures FirstDead(s.slots, sorted, x) && ids != []
    {
      SortedDead(s.slots, ids, x);
    }
  }

  lemma SortedDead(slots: Slots, ids: seq<SubId>, x: SubId)
    requires FirstDead(slots, ids, x)
    ensures FirstDead(slots, Sort(ids, SubLeq), x) && ids != []
  {
    hide SubSlots.Live, Sort;
    forall y
      ensures y in Sort(ids, SubLeq) <==> y in ids
    {
      SortMembers(ids, SubLeq, y);
    }
  }

  // ── Reading and writing ────────────────────────────────────────────────────

  /** An id is accepted for reading and writing as long as its slot holds a big page; sub-page i is the
      i-th of equal parts of that page. */
  lemma SubAccessAnswers(g: Geometry, size: nat, n: nat, s: SubSys, x: SubId, data: seq<byte>, a: Abs)
    requires SubSteady(g, n, s, a) && Cut(g, size, n) && |data| == size
    ensures InPage(size, n, s, x)
    ensures
      var read, written := SubRead(size, n, s, x), SubWrite(size, n, s, x, data).1;
      var there := x.sub < n && x.slot < |s.slots| && s.slots[x.slot].Some?;
      && (read == Err(OutOfBounds) <==> !there) && (written == Err(OutOfBounds) <==> !there)
      && (read == Err(Unavailable) <==> there && !s.inner.mapped) && (written == Err(Unavailable) <==> there && !s.inner.mapped)
      && (read.Ok? <==> there && s.inner.mapped) && (written.Ok? <==> there && s.inner.mapped)
      && (read.Ok? ==>
            var page := MappedPage(s.inner.disk, s.slots[x.slot].value.id);
            x.sub * size + size <= |page| && read.value == page[x.sub * size..x.sub * size + size])
  {
    hide SubSteady, Cut, InPage, Spliced, SubOk, Steady, Referenced, MappedPage;
    SubParts(g, n, s, a);
    PagesFit(g, size, n, s, x, a);
    PageFits(size, n, s, x);
    if Addressable(n, s.slots, x) {
      BigIsRegular(n, s, x);
    }
  }

  lemma PageFits(size: nat, n: nat, s: SubSys, x: SubId)
    requires InPage(size, n, s, x)
    ensures Addressable(n, s.slots, x) ==> Offset(size, x) + size <= |PageOf(s, x)|
  {
  }
}
