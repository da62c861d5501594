/** How far a file can grow before its bitmap no longer fits one metadata page. */
module GrowthBound {
  import opened Bytes
  import opened Metadata
  import opened Layout
  import opened Recovery
  import opened PagerSpec
  import opened Ownership
  import opened Safety
  import opened RawAllocation
  import opened DirChanges

  lemma {:induction false} Pow2Monotone(i: nat, j: nat)
    requires i <= j
    ensures Pow2(i) <= Pow2(j)
    decreases j - i
  {
    if i < j {
      Pow2Monotone(i, j - 1);
    }
  }

  lemma {:induction false} Pow2Strict(i: nat, j: nat)
    ensures Pow2(i) < Pow2(j) <==> i < j
  {
    if i < j {
      Pow2Monotone(i + 1, j);
    } else {
      Pow2Monotone(j, i);
    }
  }

  /** For every power-of-two page size from 1024 on and every page count a file can reach,
      the bitmap fits its page exactly when there are at most 4 * PAGE_SIZE pages. */
  lemma BitmapFitsExactly(k: nat, n: nat)
    requires Pow2(k) >= 1024
    ensures 24 + BytesFor(4 * Pow2(n)) <= Pow2(k) - 4 <==> 4 * Pow2(n) <= 4 * Pow2(k)
  {
    Pow2Strict(k, n);
    if n <= k {
      if n >= 1 {
        assert Pow2(n) == 2 * Pow2(n - 1);
        Pow2Monotone(n - 1, k - 1);
        assert Pow2(k) == 2 * Pow2(k - 1);
      }
    } else {
      Pow2Monotone(k + 1, n);
      assert Pow2(n) >= 2 * Pow2(k);
    }
  }

  /** In every reachable state, in memory and on disk, the page count is 4 * 2^n and at most
      4 * PAGE_SIZE, and every slice the serializer takes is in range. */
  lemma ReachableTotals(g: Geometry, s: Sys, a: Abs)
    requires Steady(g, s, a)
    ensures Doubled(s.mem.meta.total) && Doubled(s.dur.meta.total)
    ensures s.mem.meta.total <= 4 * g.pageSize && s.dur.meta.total <= 4 * g.pageSize
    ensures 24 + |s.mem.meta.bitmap| <= g.pageSize - 4 && |MetaBytes(g, s.mem.meta)| == g.pageSize
  {
    hide Steady, Exact, Owned, DirShape, MetaBytes, Doubled;
    DurConsistent(g, s, a);
    SteadyMeta(g, s, a);
    TotalBound(g, s.mem);
    TotalBound(g, s.dur);
    MetaRoundTrip(g, s.mem.meta);
  }

  lemma TotalBound(g: Geometry, m: Mem)
    requires Consistent(g, m)
    ensures m.meta.total <= 4 * g.pageSize
  {
    hide Exact, Owned, DirShape;
    var n: nat :| m.meta.total == 4 * Pow2(n);
    BitmapFitsExactly(g.log2, n);
  }

  /** So a run stays within the bound exactly as long as its doublings do: a call may grow
      the file to t pages, itself a doubling, if and only if t is at most 4 * PAGE_SIZE. */
  lemma RoomIsBound(g: Geometry, t: nat)
    requires Doubled(t)
    ensures Room(g, t) <==> t <= 4 * g.pageSize
  {
    var n: nat :| t == 4 * Pow2(n);
    BitmapFitsExactly(g.log2, n);
  }
}
