/** Which pages a pager state refers to, counted with multiplicity, and the invariant that
    every one of them has a single owner and is marked allocated. */
module Ownership {
  import opened Bytes
  import opened Metadata
  import opened Layout
  import opened Recovery
  import opened PagerSpec

  ghost function Sum(bags: seq<multiset<nat>>): multiset<nat> {
    if bags == [] then multiset{} else bags[0] + Sum(bags[1..])
  }

  ghost function RefBag(r: DirBlockRef): multiset<nat> {
    multiset{r.pageA, r.pageB}
  }

  ghost function EntryBag(e: DirEntry): multiset<nat> {
    if e.inUse then multiset{e.pageA, e.pageB} else multiset{}
  }

  ghost function RefBags(refs: seq<DirBlockRef>): seq<multiset<nat>> {
    seq(|refs|, i requires 0 <= i < |refs| => RefBag(refs[i]))
  }

  ghost function EntryBags(es: seq<DirEntry>): seq<multiset<nat>> {
    seq(|es|, i requires 0 <= i < |es| => EntryBag(es[i]))
  }

  ghost function DirBags(dirs: seq<DirPage>): seq<multiset<nat>> {
    seq(|dirs|, i requires 0 <= i < |dirs| => Sum(EntryBags(dirs[i].entries)))
  }

  /** The directory's own pages. */
  ghost function BlockPages(m: Mem): multiset<nat> {
    Sum(RefBags(m.blocks))
  }

  /** The backing pages of the in-use entries. */
  ghost function BackingPages(m: Mem): multiset<nat> {
    Sum(DirBags(m.dirs))
  }

  ghost function Referenced(m: Mem): multiset<nat> {
    BlockPages(m) + BackingPages(m)
  }

  /** Every referenced page is referenced once, is no reserved page and is allocated. */
  ghost predicate Owned(m: Mem) {
    forall x: nat ::
      && Referenced(m)[x] <= 1
      && (x in Referenced(m) ==> FIRST_DATA_PAGE <= x && Allocated(m.meta, x))
  }

  /** The slot count is the page's, the active copy is the one the generation says. */
  ghost predicate DirShape(g: Geometry, d: DirPage) {
    && d.capacity == |d.entries| == Epp(g)
    && forall i :: 0 <= i < |d.entries| ==>
         EntryFits(d.entries[i]) && d.entries[i].activeSlot == d.entries[i].generation % 2
  }

  /** Doublings of the four pages a file is created with. */
  ghost predicate Doubled(total: nat) {
    exists n: nat :: total == 4 * Pow2(n)
  }

  predicate Room(g: Geometry, total: nat) {
    24 + BytesFor(total) <= g.pageSize - 4
  }

  /** The invariant of a pager state, in memory or on disk. */
  ghost predicate Consistent(g: Geometry, m: Mem) {
    && Exact(m.meta) && MetaFits(g, m.meta) && Doubled(m.meta.total)
    && |m.dirs| == |m.blocks| <= MaxDirBlocks(g.pageSize)
    && (forall i :: 0 <= i < |m.dirs| ==> DirShape(g, m.dirs[i]))
    && Owned(m)
  }

  /** Memory's entry e is the durable f, except that a free of it may not have landed yet. */
  predicate EntryLags(e: DirEntry, f: DirEntry) {
    e == f || (f.inUse && e == f.(inUse := false))
  }

  ghost predicate PageLags(d: DirPage, f: DirPage) {
    && d.capacity == f.capacity && |d.entries| == |f.entries|
    && forall i :: 0 <= i < |d.entries| ==> EntryLags(d.entries[i], f.entries[i])
  }

  /** The directory in memory is the durable one, less some entries freed in memory only. */
  ghost predicate DirsLag(dirs: seq<DirPage>, durable: seq<DirPage>) {
    |dirs| == |durable| && forall b :: 0 <= b < |dirs| ==> PageLags(dirs[b], durable[b])
  }

  // ── Sums of bags ───────────────────────────────────────────────────────────

  lemma AddLeft(a: multiset<nat>, b: multiset<nat>, c: multiset<nat>, d: multiset<nat>, e: multiset<nat>)
    requires b + c == d + e
    ensures (a + b) + c == (a + d) + e
  {
    assert (a + b) + c == a + (b + c);
    assert (a + d) + e == a + (d + e);
  }

  lemma {:induction false} SumUpdate(bags: seq<multiset<nat>>, i: nat, b: multiset<nat>)
    requires i < |bags|
    ensures Sum(bags[i := b]) + bags[i] == Sum(bags) + b
  {
    if i == 0 {
      assert bags[i := b][1..] == bags[1..];
    } else {
      SumUpdate(bags[1..], i - 1, b);
      assert bags[i := b][1..] == bags[1..][i - 1 := b];
      AddLeft(bags[0], Sum(bags[1..][i - 1 := b]), bags[i], Sum(bags[1..]), b);
    }
  }

  lemma {:induction false} SumAppend(bags: seq<multiset<nat>>, b: multiset<nat>)
    ensures Sum(bags + [b]) == Sum(bags) + b
  {
    if bags == [] {
      assert [b][1..] == [];
    } else {
      SumAppend(bags[1..], b);
      assert (bags + [b])[1..] == bags[1..] + [b];
    }
  }

  lemma {:induction false} SumHas(bags: seq<multiset<nat>>, i: nat)
    requires i < |bags|
    ensures bags[i] <= Sum(bags)
  {
    if i > 0 {
      SumHas(bags[1..], i - 1);
    }
  }

  lemma {:induction false} SumHasBoth(bags: seq<multiset<nat>>, i: nat, j: nat)
    requires i < j < |bags|
    ensures bags[i] + bags[j] <= Sum(bags)
  {
    if i == 0 {
      SumHas(bags[1..], j - 1);
    } else {
      SumHasBoth(bags[1..], i - 1, j - 1);
    }
  }

  lemma {:induction false} SumZero(bags: seq<multiset<nat>>)
    requires forall i :: 0 <= i < |bags| ==> bags[i] == multiset{}
    ensures Sum(bags) == multiset{}
  {
    if bags != [] {
      SumZero(bags[1..]);
    }
  }

  // ── How updates change the referenced pages ────────────────────────────────

  lemma EntryBagsUpdate(es: seq<DirEntry>, i: nat, e: DirEntry)
    requires i < |es|
    ensures EntryBags(es[i := e]) == EntryBags(es)[i := EntryBag(e)]
  {
  }

  lemma EntriesSumUpdate(es: seq<DirEntry>, i: nat, e: DirEntry)
    requires i < |es|
    ensures Sum(EntryBags(es[i := e])) + EntryBag(es[i]) == Sum(EntryBags(es)) + EntryBag(e)
  {
    EntryBagsUpdate(es, i, e);
    SumUpdate(EntryBags(es), i, EntryBag(e));
  }

  lemma DirBagsUpdate(dirs: seq<DirPage>, b: nat, d: DirPage)
    requires b < |dirs|
    ensures DirBags(dirs[b := d]) == DirBags(dirs)[b := Sum(EntryBags(d.entries))]
  {
  }

  lemma RefBagsUpdate(refs: seq<DirBlockRef>, b: nat, r: DirBlockRef)
    requires b < |refs|
    ensures RefBags(refs[b := r]) == RefBags(refs)[b := RefBag(r)]
  {
  }

  lemma RefBagsAppend(refs: seq<DirBlockRef>, r: DirBlockRef)
    ensures RefBags(refs + [r]) == RefBags(refs) + [RefBag(r)]
  {
  }

  lemma DirBagsAppend(dirs: seq<DirPage>, d: DirPage)
    ensures DirBags(dirs + [d]) == DirBags(dirs) + [Sum(EntryBags(d.entries))]
  {
  }

  lemma Cancel(x': multiset<nat>, x: multiset<nat>, e': multiset<nat>, e: multiset<nat>,
               s': multiset<nat>, s: multiset<nat>)
    requires x' + e == x + e' && s' + x == s + x'
    ensures s' + e == s + e'
  {
    forall k: nat
      ensures (s' + e)[k] == (s + e')[k]
    {
      assert (x' + e)[k] == (x + e')[k] && (s' + x)[k] == (s + x')[k];
    }
  }

  lemma SetEntryBag(m: Mem, b: nat, slot: nat, e: DirEntry)
    requires HasEntry(m, b, slot)
    ensures BackingPages(m.(dirs := SetEntry(m.dirs, b, slot, e))) + EntryBag(m.dirs[b].entries[slot])
         == BackingPages(m) + EntryBag(e)
  {
    var es := m.dirs[b].entries;
    var d := m.dirs[b].(entries := es[slot := e]);
    EntriesSumUpdate(es, slot, e);
    DirBagsUpdate(m.dirs, b, d);
    SumUpdate(DirBags(m.dirs), b, Sum(EntryBags(d.entries)));
    Cancel(Sum(EntryBags(d.entries)), Sum(EntryBags(es)), EntryBag(e), EntryBag(es[slot]),
           Sum(DirBags(m.dirs[b := d])), BackingPages(m));
  }

  lemma SetBlockBag(m: Mem, b: nat, r: DirBlockRef)
    requires b < |m.blocks| && RefBag(r) == RefBag(m.blocks[b])
    ensures BlockPages(m.(blocks := m.blocks[b := r])) == BlockPages(m)
  {
    RefBagsUpdate(m.blocks, b, r);
    assert RefBags(m.blocks)[b := RefBag(r)] == RefBags(m.blocks);
  }

  lemma NewDirBag(g: Geometry, e: DirEntry)
    ensures Sum(EntryBags(NewDirPage(g.pageSize).entries[0 := e])) == EntryBag(e)
  {
    var es := NewDirPage(g.pageSize).entries;
    SumZero(EntryBags(es));
    EntriesSumUpdate(es, 0, e);
    var sum := Sum(EntryBags(es[0 := e]));
    assert sum + EntryBag(es[0]) == sum && Sum(EntryBags(es)) + EntryBag(e) == EntryBag(e);
  }

  lemma AddBlockBag(m: Mem, r: DirBlockRef, d: DirPage)
    ensures BlockPages(m.(blocks := m.blocks + [r])) == BlockPages(m) + RefBag(r)
    ensures BackingPages(m.(dirs := m.dirs + [d])) == BackingPages(m) + Sum(EntryBags(d.entries))
  {
    RefBagsAppend(m.blocks, r);
    SumAppend(RefBags(m.blocks), RefBag(r));
    DirBagsAppend(m.dirs, d);
    SumAppend(DirBags(m.dirs), Sum(EntryBags(d.entries)));
  }

  // ── Distinctness ───────────────────────────────────────────────────────────

  lemma BlockReferenced(m: Mem, b: nat)
    requires b < |m.blocks|
    ensures RefBag(m.blocks[b]) <= BlockPages(m)
  {
    SumHas(RefBags(m.blocks), b);
  }

  lemma EntryReferenced(m: Mem, b: nat, slot: nat)
    requires HasEntry(m, b, slot)
    ensures EntryBag(EntryAt(m, b, slot)) <= BackingPages(m)
  {
    SumHas(EntryBags(m.dirs[b].entries), slot);
    SumHas(DirBags(m.dirs), b);
  }

  lemma BlocksDistinct(m: Mem, b: nat, c: nat)
    requires Owned(m) && b < |m.blocks| && c < |m.blocks| && b != c
    ensures RefBag(m.blocks[b]) !! RefBag(m.blocks[c])
  {
    var lo, hi := if b < c then b else c, if b < c then c else b;
    SumHasBoth(RefBags(m.blocks), lo, hi);
    Disjoint(m, RefBag(m.blocks[lo]), RefBag(m.blocks[hi]));
  }

  lemma PairDistinct(m: Mem, b: nat)
    requires Owned(m) && b < |m.blocks|
    ensures m.blocks[b].pageA != m.blocks[b].pageB
  {
    BlockReferenced(m, b);
    assert Referenced(m)[m.blocks[b].pageA] <= 1;
  }

  lemma EntriesDistinct(m: Mem, b: nat, i: nat, c: nat, j: nat)
    requires Owned(m) && HasEntry(m, b, i) && HasEntry(m, c, j) && (b != c || i != j)
    ensures EntryBag(EntryAt(m, b, i)) !! EntryBag(EntryAt(m, c, j))
  {
    if b == c {
      var lo, hi := if i < j then i else j, if i < j then j else i;
      SumHasBoth(EntryBags(m.dirs[b].entries), lo, hi);
      SumHas(DirBags(m.dirs), b);
      Disjoint(m, EntryBag(EntryAt(m, b, lo)), EntryBag(EntryAt(m, b, hi)));
    } else {
      var lo, hi := if b < c then b else c, if b < c then c else b;
      SumHas(EntryBags(m.dirs[b].entries), i);
      SumHas(EntryBags(m.dirs[c].entries), j);
      SumHasBoth(DirBags(m.dirs), lo, hi);
      assert DirBags(m.dirs)[b] + DirBags(m.dirs)[c] <= BackingPages(m);
      Disjoint(m, EntryBag(EntryAt(m, b, i)), EntryBag(EntryAt(m, c, j)));
    }
  }

  lemma CopiesDistinct(m: Mem, b: nat, slot: nat)
    requires Owned(m) && HasEntry(m, b, slot) && EntryAt(m, b, slot).inUse
    ensures EntryAt(m, b, slot).pageA != EntryAt(m, b, slot).pageB
  {
    EntryReferenced(m, b, slot);
    assert Referenced(m)[EntryAt(m, b, slot).pageA] <= 1;
  }

  lemma BlocksAndEntriesDistinct(m: Mem, b: nat, c: nat, slot: nat)
    requires Owned(m) && b < |m.blocks| && HasEntry(m, c, slot)
    ensures RefBag(m.blocks[b]) !! EntryBag(EntryAt(m, c, slot))
  {
    BlockReferenced(m, b);
    EntryReferenced(m, c, slot);
    Disjoint(m, RefBag(m.blocks[b]), EntryBag(EntryAt(m, c, slot)));
  }

  lemma Disjoint(m: Mem, a: multiset<nat>, b: multiset<nat>)
    requires Owned(m) && a + b <= Referenced(m)
    ensures a !! b
  {
    forall x: nat
      ensures x !in a || x !in b
    {
      assert Referenced(m)[x] <= 1;
      assert (a + b)[x] <= Referenced(m)[x];
    }
  }

  // ── A directory with fewer entries in use ──────────────────────────────────

  lemma {:induction false} SumMonotone(bags: seq<multiset<nat>>, bags': seq<multiset<nat>>)
    requires |bags| == |bags'| && forall i :: 0 <= i < |bags| ==> bags[i] <= bags'[i]
    ensures Sum(bags) <= Sum(bags')
  {
    if bags != [] {
      SumMonotone(bags[1..], bags'[1..]);
    }
  }

  lemma PageLagBag(d: DirPage, f: DirPage)
    requires PageLags(d, f)
    ensures Sum(EntryBags(d.entries)) <= Sum(EntryBags(f.entries))
  {
    hide Sum;
    forall i | 0 <= i < |d.entries|
      ensures EntryBags(d.entries)[i] <= EntryBags(f.entries)[i]
    {
      assert EntryLags(d.entries[i], f.entries[i]);
    }
    SumMonotone(EntryBags(d.entries), EntryBags(f.entries));
  }

  lemma LagReferenced(m: Mem, f: Mem)
    requires m.blocks == f.blocks && DirsLag(m.dirs, f.dirs)
    ensures Referenced(m) <= Referenced(f)
  {
    hide Sum, EntryBags, PageLags;
    forall b | 0 <= b < |m.dirs|
      ensures DirBags(m.dirs)[b] <= DirBags(f.dirs)[b]
    {
      PageLagBag(m.dirs[b], f.dirs[b]);
    }
    SumMonotone(DirBags(m.dirs), DirBags(f.dirs));
  }

  lemma LagOwned(m: Mem, f: Mem)
    requires Owned(f) && m.meta == f.meta && m.blocks == f.blocks && DirsLag(m.dirs, f.dirs)
    ensures Owned(m)
  {
    hide Referenced, Allocated, PageLags;
    LagReferenced(m, f);
    forall x: nat
      ensures Referenced(m)[x] <= 1
      ensures x in Referenced(m) ==> x in Referenced(f)
    {
      assert Referenced(m)[x] <= Referenced(f)[x] <= 1;
    }
  }

  lemma LagShape(g: Geometry, d: DirPage, f: DirPage)
    requires DirShape(g, f) && PageLags(d, f)
    ensures DirShape(g, d)
  {
    forall i | 0 <= i < |d.entries|
      ensures EntryFits(d.entries[i]) && d.entries[i].activeSlot == d.entries[i].generation % 2
    {
      assert EntryLags(d.entries[i], f.entries[i]);
      assert EntryFits(f.entries[i]);
    }
  }

  /** Freeing entries in memory keeps the invariant; which metadata page is active is no part
      of it. */
  lemma LagConsistent(g: Geometry, m: Mem, f: Mem)
    requires Consistent(g, f) && m.meta == f.meta && m.blocks == f.blocks && DirsLag(m.dirs, f.dirs)
    ensures Consistent(g, m)
  {
    hide Exact, MetaFits, Owned, Doubled, DirShape, PageLags;
    LagOwned(m, f);
    forall b | 0 <= b < |m.dirs|
      ensures DirShape(g, m.dirs[b])
    {
      LagShape(g, m.dirs[b], f.dirs[b]);
    }
  }

  lemma LagsItself(dirs: seq<DirPage>)
    ensures DirsLag(dirs, dirs)
  {
  }
}
