/** Which sub-page an allocation hands out, and how many big pages the live sub-pages take. */
module SubPicks {
  import opened Bytes
  import opened PagerSpec
  import opened Runs
  import opened SubSlots
  import opened SubAllocation
  import opened DirSafety
  import opened RawAllocation
  import opened Safety
  import opened Metadata
  import opened Accounting
  import opened SubSafety
  import opened SubRuns

  /** When every sub-page is taken, a success takes exactly one more page from the pager. */
  lemma SubAllocAddsOne(g: Geometry, n: nat, s: SubSys, env: Env, a: Abs)
    requires SubSteady(g, n, s, a) && 0 < n <= 64 && (forall x :: !Spare(n, s.slots, x))
    requires Capacity(g, s.inner.mem.meta, 1) && s.inner.mem.meta.generation + 1 < U64_LIMIT
    ensures
      var (s', r) := SubAlloc(g, n, s, env);
      r.Ok? ==> exists big ::
                  big !in BigPages(s.slots) && BigPages(s'.slots) == BigPages(s.slots) + {big}
  {
    hide SubSteady, SubAlloc, Alloc, Spare, FirstHole, BigPages, Capacity, SlotsOk, Filled, Steady, Regular, AllocatedSet;
    SubParts(g, n, s, a);
    SubAllocPicks(g, n, s, env);
    InnerAlloc(g, s.inner, env, a, 1);
  }

  // ── A new allocator ────────────────────────────────────────────────────────

  /** The place of a sub-page, counting from the first slot. */
  function Rank(n: nat, x: SubId): nat {
    x.slot * n + x.sub
  }

  function Ceil(k: nat, n: nat): nat
    requires n > 0
  {
    (k + n - 1) / n
  }

  /** The first k sub-pages are live, in as few big pages as hold them. */
  ghost predicate Packed(n: nat, slots: Slots, k: nat)
    requires n > 0
  {
    && |slots| == Ceil(k, n) && (forall i :: 0 <= i < |slots| ==> slots[i].Some?)
    && forall x :: SubSlots.Live(slots, x) <==> x.sub < n && Rank(n, x) < k
  }

  /** The k-th sub-page, counting from 0. */
  function Nth(n: nat, k: nat): SubId
    requires n > 0
  {
    SubId(k / n, k % n)
  }

  lemma RankUnique(n: nat, x: SubId, k: nat)
    requires n > 0 && x.sub < n
    ensures Rank(n, x) == k <==> x == Nth(n, k)
    ensures Rank(n, x) < k ==> SubLeq(x, Nth(n, k))
    ensures Rank(n, x) >= k ==> SubLeq(Nth(n, k), x)
  {
    var q, t := k / n, k % n;
    assert k == q * n + t;
    if x.slot < q {
      NextMultiple(x.slot, q, n);
    } else if x.slot > q {
      NextMultiple(q, x.slot, n);
    }
  }

  lemma CeilStep(k: nat, n: nat)
    requires n > 0
    ensures Ceil(k, n) == if Nth(n, k).sub == 0 then Nth(n, k).slot else Nth(n, k).slot + 1
    ensures Ceil(k + 1, n) == Nth(n, k).slot + 1 && Nth(n, k).sub < n
  {
    var q, t := k / n, k % n;
    assert k == q * n + t;
    assert (q + 1) * n == q * n + n;
    QuotientUnique(Ceil(k + 1, n), (k + n) % n, q + 1, t, n);
    if t == 0 {
      QuotientUnique(Ceil(k, n), (k + n - 1) % n, q, n - 1, n);
    } else {
      QuotientUnique(Ceil(k, n), (k + n - 1) % n, q + 1, t - 1, n);
    }
  }

  lemma NextIsSpare(n: nat, slots: Slots, k: nat)
    requires 0 < n && Packed(n, slots, k)
    ensures Nth(n, k).sub > 0 ==> Spare(n, slots, Nth(n, k))
    ensures forall x :: Spare(n, slots, x) ==> Nth(n, k).sub > 0 && SubLeq(Nth(n, k), x)
  {
    hide SubSlots.Live, Ceil, Rank, Nth;
    CeilStep(k, n);
    var next := Nth(n, k);
    RankUnique(n, next, k);
    forall x | Spare(n, slots, x)
      ensures next.sub > 0 && SubLeq(next, x)
    {
      RankUnique(n, x, k);
    }
  }

  /** One more sub-page is live, the next in order. */
  lemma PackedMore(n: nat, slots: Slots, slots': Slots, k: nat)
    requires n > 0 && Packed(n, slots, k)
    requires forall x :: SubSlots.Live(slots', x) <==> x == Nth(n, k) || SubSlots.Live(slots, x)
    requires |slots'| == Ceil(k + 1, n) && forall i :: 0 <= i < |slots'| ==> slots'[i].Some?
    ensures Packed(n, slots', k + 1)
  {
    hide SubSlots.Live, Ceil, Rank, Nth;
    CeilStep(k, n);
    forall x
      ensures SubSlots.Live(slots', x) <==> x.sub < n && Rank(n, x) < k + 1
    {
      if x.sub < n {
        RankUnique(n, x, k);
      }
    }
  }

  lemma PickSpare(n: nat, slots: Slots, slots': Slots, x: SubId, k: nat)
    requires n > 0 && Packed(n, slots, k) && FirstSpare(n, slots, x) && SameBigs(slots, slots')
    ensures x == Nth(n, k) && |slots'| == Ceil(k + 1, n) && forall i :: 0 <= i < |slots'| ==> slots'[i].Some?
  {
    hide Spare, Ceil, Rank, Nth;
    NextIsSpare(n, slots, k);
    CeilStep(k, n);
    assert SubLeq(x, Nth(n, k)) && SubLeq(Nth(n, k), x);
  }

  lemma PickNew(n: nat, slots: Slots, x: SubId, big: nat, k: nat)
    requires n > 0 && Packed(n, slots, k) && Nth(n, k).sub == 0
    requires x.sub == 0 && FirstHole(slots, x.slot)
    ensures x == Nth(n, k)
    ensures
      var slots' := Filled(slots, x.slot, big);
      |slots'| == Ceil(k + 1, n) && forall i :: 0 <= i < |slots'| ==> slots'[i].Some?
  {
    hide SubSlots.Live, Ceil, Rank, Nth;
    CeilStep(k, n);
  }

  /** On a new allocator the next sub-page is the next one in order. */
  lemma PackedStep(g: Geometry, n: nat, s: SubSys, env: Env, a: Abs, k: nat, room: nat)
    requires SubSteady(g, n, s, a) && 0 < n <= 64 && Packed(n, s.slots, k)
    requires room > 0 && Capacity(g, s.inner.mem.meta, room) && s.inner.mem.meta.generation + 1 < U64_LIMIT
    ensures
      var (s', r) := SubAlloc(g, n, s, env);
      && (Nth(n, k).sub > 0 ==> r.Ok?)
      && (r.Ok? ==> r.value == Nth(n, k) && Packed(n, s'.slots, k + 1))
  {
    hide SubSteady, SubAlloc, SubSlots.Live, SlotsOk, Spare, Capacity, Others, Alloc, Rank, Ceil, Nth, BigPages,
         FirstSpare, FirstHole, SameBigs, Packed, Filled;
    SubParts(g, n, s, a);
    SubAllocSafe(g, n, s, env, a, room);
        NextIsSpare(n, s.slots, k);
    var (s', r) := SubAlloc(g, n, s, env);
    if r.Ok? {
      if Nth(n, k).sub > 0 {
        PickSpare(n, s.slots, s'.slots, r.value, k);
      } else {
        PickNew(n, s.slots, r.value, Alloc(g, Begin(s.inner), env).1.value, k);
      }
      PackedMore(n, s.slots, s'.slots, k);
    }
  }

  // ── As many as are asked for ───────────────────────────────────────────────

  lemma PackedNothing(n: nat)
    requires n > 0
    ensures Packed(n, [], 0)
  {
    assert Ceil(0, n) == 0;
  }

  lemma {:induction false} SlotPages(n: nat, slots: Slots)
    requires SlotsOk(n, slots) && forall i :: 0 <= i < |slots| ==> slots[i].Some?
    ensures |BigPages(slots)| == |slots|
  {
    hide FullMask;
    if slots != [] {
      var last := |slots| - 1;
      SlotPages(n, slots[..last]);
      assert BigPages(slots) == BigPages(slots[..last]) + {slots[last].value.id};
      assert slots[last].value.id !in BigPages(slots[..last]);
    } else {
      assert BigPages(slots) == {};
    }
  }

  /** The ids of the sub-pages from the k-th on. */
  function Following(n: nat, k: nat, count: nat): seq<SubId>
    requires n > 0
  {
    seq(count, i requires 0 <= i < count => Nth(n, k + i))
  }

  lemma FollowingNone(n: nat, k: nat)
    requires n > 0
    ensures Following(n, k, 0) == []
  {
  }

  lemma FollowingFirst(n: nat, k: nat, count: nat)
    requires n > 0 && count > 0
    ensures Following(n, k, count) == [Nth(n, k)] + Following(n, k + 1, count - 1)
  {
    hide Nth;
  }

  lemma {:induction false} EachInOrder(g: Geometry, n: nat, s: SubSys, env: Env, count: nat, a: Abs, k: nat)
    requires SubSteady(g, n, s, a) && 0 < n <= 64 && Packed(n, s.slots, k)
    requires Capacity(g, s.inner.mem.meta, count) && s.inner.mem.meta.generation + count < U64_LIMIT
    ensures
      var (s', ids, r) := SubAllocEach(g, n, s, env, count);
      r.Ok? ==> ids == Following(n, k, count) && Packed(n, s'.slots, k + count)
    decreases count
  {
    hide SubSteady, SubAlloc, SubSlots.Live, Capacity, Others, Packed, Nth, Following;
    if count == 0 {
      FollowingNone(n, k);
    } else {
      PackedStep(g, n, s, env, a, k, count);
      SubAllocSafe(g, n, s, env, a, count);
      var (s1, r) := SubAlloc(g, n, s, env);
      if r.Ok? {
        EachInOrder(g, n, s1, env, count - 1, a, k + 1);
        FollowingFirst(n, k, count);
      }
    }
  }

  /** k sub-pages on a new allocator: the i-th is sub-page i mod n of big page i / n, and they take
      as few big pages as hold k. */
  lemma NewAllocatorPacks(g: Geometry, n: nat, inner: Sys, env: Env, k: nat, a: Abs)
    requires Steady(g, inner, a) && 0 < n <= 64
    requires Capacity(g, inner.mem.meta, k) && inner.mem.meta.generation + k < U64_LIMIT
    ensures
      var (s', r) := SubAllocBulk(g, n, SubSys([], inner), env, k);
      r.Ok? ==>
        && r.value == Following(n, 0, k) && Packed(n, s'.slots, k)
        && |BigPages(s'.slots)| == |s'.slots| == (k + n - 1) / n
  {
    hide SubSteady, SubAllocEach, Steady, SubSlots.Live, Capacity, Others, TookSubs, Following, SlotsOk, BigPages;
    var s := SubSys([], inner);
    NewSubSteady(g, n, inner, a);
    PackedNothing(n);
    EachInOrder(g, n, s, env, k, a, 0);
    SubAllocEachSafe(g, n, s, env, k, a);
    var (s', ids, r) := SubAllocEach(g, n, s, env, k);
    if r.Ok? {
      SubParts(g, n, s', a);
      SlotPages(n, s'.slots);
    }
  }
}
