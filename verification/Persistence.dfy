/** What a user reads back: the last committed bytes of every protected page, at any later
    point of any run, until the page is written again or freed. */
module Persistence {
  import opened Bytes
  import opened Results
  import opened Metadata
  import opened Disks
  import opened Recovery
  import opened PagerSpec
  import opened Ownership
  import opened Safety
  import opened DirSafety
  import opened RawAllocation
  import opened DirChanges
  import opened Operations
  import opened Runs

  lemma CleanPage(d: Disk, i: nat)
    requires Sound(d) && i < |d.durable| && i !in d.dirty
    ensures MappedPage(d, i) == d.durable[i]
  {
  }

  lemma CommittedCopy(g: Geometry, s: Sys, a: Abs, id: nat)
    requires Steady(g, s, a) && InUse(g, s.mem, id) && id in a && a[id].Some?
    ensures CopyHolds(s.disk, EntryOf(g, s.mem, id), a[id].value, g.crc) && Sound(s.disk)
  {
    hide EntryOf, Consistent, Encodes, CleanCore, Sized, DirsLag;
    ShownInContents(g, s, a, id);
  }

  /** `get_protected_page` answers for exactly the ids shown while the file is mapped, with the
      committed bytes. */
  lemma ReadsContents(g: Geometry, s: Sys, v: View, id: nat)
    requires Shows(g, s, v)
    ensures ReadProtected(g, s, id).Ok? <==> id in v.shown && v.mapped
    ensures id in v.shown ==> id in v.pages
    ensures id in v.shown && v.mapped && v.pages[id].Some? ==> ReadProtected(g, s, id) == Ok(v.pages[id].value)
  {
    hide Steady, EntryOf, Sound;
    ShownInContents(g, s, v.pages, id);
    if id in v.shown && v.mapped && v.pages[id].Some? {
      CommittedCopy(g, s, v.pages, id);
      CleanPage(s.disk, ActivePhys(EntryOf(g, s.mem, id)));
    }
  }

  /** The event is a call, completed or cut short by a crash, that replaces or frees page id. */
  predicate Touches(e: Event, id: nat) {
    match e
    case Call(op, _) => op == OpFreeProtected(id) || (op.OpWriteProtected? && op.id == id)
    case CrashDuring(op, _, _) => op == OpFreeProtected(id) || (op.OpWriteProtected? && op.id == id)
    case Reboot(_) => false
  }

  /** The view shows page id with these contents. */
  predicate HasPage(v: View, id: nat, c: Option<Page>) {
    id in v.shown && id in v.pages && v.pages[id] == c
  }

  lemma UntouchedStep(v: View, op: Op, r: Reply, v': View, id: nat, c: Option<Page>)
    requires AbsStep(v, op, r, v') && HasPage(v, id, c)
    requires op != OpFreeProtected(id) && !(op.OpWriteProtected? && op.id == id)
    ensures HasPage(v', id, c)
  {
  }

  lemma UntouchedEvent(v: View, e: Event, v': View, id: nat, c: Option<Page>)
    requires AbsNext(v, e, v') && HasPage(v, id, c) && !Touches(e, id)
    ensures HasPage(v', id, c)
  {
    hide AbsStep;
    if e.Call? {
      UntouchedStep(v, e.op, e.reply, v', id, c);
    } else if e.CrashDuring? && v' != Reopened(v.pages) {
      var r, w :| AbsStep(v, e.op, r, w) && v' == Reopened(w.pages);
      UntouchedStep(v, e.op, r, w, id, c);
    }
  }

  lemma {:induction false} Untouched(views: seq<View>, es: seq<Event>, start: nat, end: nat, id: nat, c: Option<Page>)
    requires IsAbsRun(views, es) && start <= end <= |es| && HasPage(views[start], id, c)
    requires forall k :: start <= k < end ==> !Touches(es[k], id)
    ensures HasPage(views[end], id, c)
    decreases end
  {
    hide AbsNext, Touches, HasPage;
    if start < end {
      Untouched(views, es, start, end - 1, id, c);
      UntouchedEvent(views[end - 1], es[end - 1], views[end], id, c);
    }
  }

  lemma WrittenView(v: View, id: nat, page: Page, r: Reply, v': View)
    requires AbsStep(v, OpWriteProtected(id, page), r, v') && r.Succeeded()
    ensures HasPage(v', id, Some(page))
  {
  }

  /** A write that returned success is what every later read finds, whatever calls, crashes,
      lost mappings and reopenings came in between, as long as none of them wrote or freed that
      page. */
  lemma WritePersists(g: Geometry, ss: seq<Sys>, es: seq<Event>, i: nat, j: nat, id: nat, page: Page, reply: Reply)
    requires IsRun(g, ss, es) && i < j <= |es|
    requires es[i] == Call(OpWriteProtected(id, page), reply) && reply.Succeeded()
    requires forall k :: i < k < j ==> !Touches(es[k], id)
    requires ss[j].mapped
    ensures ReadProtected(g, ss[j], id) == Ok(page)
  {
    hide Shows, Touches, AbsStep, ReadProtected, Next;
    var views := RunRefines(g, ss, es);
    assert AbsNext(views[i], es[i], views[i + 1]);
    WrittenView(views[i], id, page, reply, views[i + 1]);
    Untouched(views, es, i + 1, j, id, Some(page));
    ShowsMapped(g, ss[j], views[j]);
    ReadsContents(g, ss[j], views[j], id);
  }

  lemma InterruptedStep(v: View, id: nat, page: Page, r: Reply, w: View)
    requires AbsStep(v, OpWriteProtected(id, page), r, w) && v.shown <= v.pages.Keys
    ensures id in v.shown ==> HasPage(Reopened(w.pages), id, Some(page)) || w.pages == v.pages
    ensures forall other :: other in v.shown && other != id ==> HasPage(Reopened(w.pages), other, v.pages[other])
  {
  }

  /** A crash anywhere between `get_mut` and the end of `commit`: the page reads as its old
      bytes or as the complete staged ones, and every other committed page keeps its bytes. */
  lemma InterruptedWrite(g: Geometry, s: Sys, v: View, id: nat, page: Page, at: nat, file: seq<Page>)
    requires Shows(g, s, v) && Allowed(g, s, OpWriteProtected(id, page))
    requires at < |Do(g, Begin(s), OpWriteProtected(id, page)).0.trace|
    requires CrashImage(g, Do(g, Begin(s), OpWriteProtected(id, page)).0.trace[at].disk, file)
    ensures Open(g, file).Ok? && v.shown <= v.pages.Keys
    ensures
      var t := Boot(Open(g, file).value, file);
      && (id in v.shown && v.pages[id].Some? ==>
            ReadProtected(g, t, id) == Ok(v.pages[id].value) || ReadProtected(g, t, id) == Ok(page))
      && forall other: nat :: other != id && other in v.shown && v.pages[other].Some? ==>
           ReadProtected(g, t, other) == Ok(v.pages[other].value)
  {
    hide Shows, Capacity, OwnPages, EntryOf, Do, CrashImage, AbsStep, Open, ReadProtected;
    var op := OpWriteProtected(id, page);
    ShowsReady(g, s, v);
    var v' := CrashDuringCall(g, s, op, v, at, file);
    if v' != Reopened(v.pages) {
      var r, w :| AbsStep(v, op, r, w) && v' == Reopened(w.pages);
      InterruptedStep(v, id, page, r, w);
    }
    var t := Boot(Open(g, file).value, file);
    forall other: nat | other in v'.shown && v'.pages[other].Some?
      ensures ReadProtected(g, t, other) == Ok(v'.pages[other].value)
    {
      ReadsContents(g, t, v', other);
    }
  }

  // ── What the durable directory refers to ───────────────────────────────────

  /** In a consistent state no page has two uses: directory pages and backing pages are
      pairwise different, not reserved, inside the file and marked allocated. */
  ghost predicate OneUseEach(g: Geometry, m: Mem) {
    && (forall b :: 0 <= b < |m.blocks| ==>
          && m.blocks[b].pageA != m.blocks[b].pageB
          && FIRST_DATA_PAGE <= m.blocks[b].Active() < m.meta.total
          && FIRST_DATA_PAGE <= m.blocks[b].Inactive() < m.meta.total)
    && (forall b, c :: 0 <= b < c < |m.blocks| ==> RefBag(m.blocks[b]) !! RefBag(m.blocks[c]))
    && (forall id: nat :: InUse(g, m, id) ==> EntryOf(g, m, id).pageA != EntryOf(g, m, id).pageB)
    && (forall id: nat, other: nat :: id != other && InUse(g, m, id) && InUse(g, m, other) ==>
          EntryBag(EntryOf(g, m, id)) !! EntryBag(EntryOf(g, m, other)))
    && (forall b, id: nat :: 0 <= b < |m.blocks| && InUse(g, m, id) ==>
          RefBag(m.blocks[b]) !! EntryBag(EntryOf(g, m, id)))
    && forall x: nat :: x in Referenced(m) ==> FIRST_DATA_PAGE <= x && Allocated(m.meta, x)
  }

  lemma InUseEntry(g: Geometry, m: Mem, id: nat)
    requires InUse(g, m, id)
    ensures
      var b, slot := BlockOf(g, id), SlotOf(g, id);
      HasEntry(m, b, slot) && EntryOf(g, m, id) == EntryAt(m, b, slot) && EntryAt(m, b, slot).inUse
  {
    hide BlockOf, SlotOf;
  }

  lemma IdsApart(g: Geometry, m: Mem, id: nat, other: nat)
    requires Owned(m) && id != other && InUse(g, m, id) && InUse(g, m, other)
    ensures EntryBag(EntryOf(g, m, id)) !! EntryBag(EntryOf(g, m, other))
  {
    hide Owned, InUse, EntryOf, EntryBag, HasEntry, EntryAt;
    InUseEntry(g, m, id);
    InUseEntry(g, m, other);
    OtherId(g, id, other);
    EntriesDistinct(m, BlockOf(g, id), SlotOf(g, id), BlockOf(g, other), SlotOf(g, other));
  }

  lemma OwnedOneUse(g: Geometry, m: Mem)
    requires Owned(m)
    ensures OneUseEach(g, m)
  {
    hide Referenced, InUse, EntryOf, EntryAt, HasEntry, RefBag, EntryBag, Allocated;
    forall b | 0 <= b < |m.blocks|
      ensures m.blocks[b].pageA != m.blocks[b].pageB
      ensures FIRST_DATA_PAGE <= m.blocks[b].Active() < m.meta.total
      ensures FIRST_DATA_PAGE <= m.blocks[b].Inactive() < m.meta.total
    {
      PairDistinct(m, b);
      BlockPageOwned(m, b);
    }
    forall b, c | 0 <= b < c < |m.blocks|
      ensures RefBag(m.blocks[b]) !! RefBag(m.blocks[c])
    {
      BlocksDistinct(m, b, c);
    }
    forall id: nat | InUse(g, m, id)
      ensures EntryOf(g, m, id).pageA != EntryOf(g, m, id).pageB
      ensures forall b :: 0 <= b < |m.blocks| ==> RefBag(m.blocks[b]) !! EntryBag(EntryOf(g, m, id))
    {
      InUseEntry(g, m, id);
      CopiesDistinct(m, BlockOf(g, id), SlotOf(g, id));
      forall b | 0 <= b < |m.blocks|
        ensures RefBag(m.blocks[b]) !! EntryBag(EntryOf(g, m, id))
      {
        BlocksAndEntriesDistinct(m, b, BlockOf(g, id), SlotOf(g, id));
      }
    }
    forall id: nat, other: nat | id != other && InUse(g, m, id) && InUse(g, m, other)
      ensures EntryBag(EntryOf(g, m, id)) !! EntryBag(EntryOf(g, m, other))
    {
      IdsApart(g, m, id, other);
    }
  }

  /** Two structures committed one after the other stay consistent over every run, whether or not
      the mapping was lost on the way: whatever the durable directory refers to is marked in the
      durable bitmap and used once. */
  lemma DirectoryNeverDangles(g: Geometry, ss: seq<Sys>, es: seq<Event>, i: nat)
    requires IsRun(g, ss, es) && i < |ss|
    ensures OneUseEach(g, ss[i].dur) && OneUseEach(g, ss[i].mem)
  {
    hide Shows, Steady, IsRun, OneUseEach, AbsNext, Consistent;
    RunLength(g, ss, es);
    var views := RunRefines(g, ss, es);
    ShowsReady(g, ss[i], views[i]);
    DurConsistent(g, ss[i], views[i].pages);
    SteadyMeta(g, ss[i], views[i].pages);
    OwnedOf(g, ss[i].dur);
    OwnedOf(g, ss[i].mem);
    OwnedOneUse(g, ss[i].dur);
    OwnedOneUse(g, ss[i].mem);
  }
}
