/** The file and its mapping, page by page: what a store, a flush, a resize and a crash do. */
module Disks {
  import opened Bytes

  /** `mapped` is what the process sees, `durable` what a reboot is sure to find, and
      `dirty` the pages stored to since they were last flushed. */
  datatype Disk = Disk(mapped: seq<Page>, durable: seq<Page>, dirty: set<nat>)

  ghost predicate Sound(d: Disk) {
    && |d.mapped| == |d.durable|
    && forall i: nat :: i < |d.mapped| && i !in d.dirty ==> d.mapped[i] == d.durable[i]
  }

  /** Every page, mapped or durable, is one page long. */
  ghost predicate Sized(g: Geometry, d: Disk) {
    && (forall i :: 0 <= i < |d.mapped| ==> |d.mapped[i]| == g.pageSize)
    && forall i :: 0 <= i < |d.durable| ==> |d.durable[i]| == g.pageSize
  }

  function Store(d: Disk, i: nat, p: Page): Disk {
    if i < |d.mapped| then d.(mapped := d.mapped[i := p], dirty := d.dirty + {i}) else d
  }

  /** `flush_range` of one page. */
  function Flush(d: Disk, i: nat): Disk {
    if i < |d.mapped| && i < |d.durable| then
      d.(durable := d.durable[i := d.mapped[i]], dirty := d.dirty - {i})
    else d
  }

  function ResizePages(g: Geometry, pages: seq<Page>, n: nat): (r: seq<Page>)
    ensures |r| == n
  {
    if n <= |pages| then pages[..n] else pages + seq(n - |pages|, _ => Zeros(g.pageSize))
  }

  /** `set_len` to n pages: durable when it returns, new pages are zero. */
  function SetLen(g: Geometry, d: Disk, n: nat): Disk {
    d.(mapped := ResizePages(g, d.mapped, n), durable := ResizePages(g, d.durable, n))
  }

  /** The file found after a crash: a dirty page may hold any bytes, except that page 0 is
      written atomically and is found either before or after its last store. */
  ghost predicate CrashImage(g: Geometry, d: Disk, file: seq<Page>) {
    && |file| == |d.durable| == |d.mapped|
    && (forall i :: 0 <= i < |file| ==> |file[i]| == g.pageSize)
    && (0 < |file| ==> file[0] == d.durable[0] || file[0] == d.mapped[0])
    && forall i: nat :: 0 < i < |file| && i !in d.dirty ==> file[i] == d.durable[i]
  }

  /** The same without atomicity of page 0: each of its bytes is the old or the new one. */
  ghost predicate TornImage(g: Geometry, d: Disk, file: seq<Page>) {
    && |file| == |d.durable| == |d.mapped|
    && (forall i :: 0 <= i < |file| ==> |file[i]| == g.pageSize)
    && (0 < |file| ==> ByteMix(d.durable[0], d.mapped[0], file[0]))
    && forall i: nat :: 0 < i < |file| && i !in d.dirty ==> file[i] == d.durable[i]
  }

  ghost predicate ByteMix(before: Page, after: Page, mix: Page) {
    && |before| == |after| == |mix|
    && forall k :: 0 <= k < |mix| ==> mix[k] == before[k] || mix[k] == after[k]
  }

  /** The disk of a process that has just mapped a file. */
  function Fresh(file: seq<Page>): Disk {
    Disk(file, file, {})
  }

  /** A disk of whole pages can be caught by a crash: what is durable is one of its images. */
  lemma DurableIsImage(g: Geometry, d: Disk)
    requires |d.mapped| == |d.durable| && Sized(g, d)
    ensures CrashImage(g, d, d.durable)
  {
  }

  lemma StoreSized(g: Geometry, d: Disk, i: nat, page: Page)
    requires Sized(g, d) && |page| == g.pageSize
    ensures Sized(g, Store(d, i, page))
  {
  }

  lemma FlushSized(g: Geometry, d: Disk, i: nat)
    requires Sized(g, d)
    ensures Sized(g, Flush(d, i))
  {
  }

  lemma ResizeSized(g: Geometry, d: Disk, n: nat)
    requires Sized(g, d)
    ensures Sized(g, SetLen(g, d, n))
  {
  }
}
