/** Damaged directory pages: `open` never takes one, it goes back to the copy written before, and
    it gives up when both copies of a block are damaged. */
module Salvage {
  import opened Bytes
  import opened Results
  import opened Layout
  import opened Formats
  import opened Recovery
  import opened OpenRules

  /** The last four bytes are not the checksum of the rest. */
  predicate Damaged(g: Geometry, page: Page) {
    |page| >= 4 && !Field(page, |page| - 4, 4, g.crc(page[..|page| - 4]))
  }

  lemma DamagedSaysNothing(g: Geometry, page: Page)
    requires Damaged(g, page)
    ensures forall d :: !SaysDir(g, page, d)
    ensures forall m :: !SaysMeta(g, page, m)
  {
    hide Field;
    assert page[..|page| - 4] == page[0..|page| - 4];
  }

  /** The same reference naming its other copy. */
  function Turned(r: DirBlockRef): DirBlockRef {
    r.(active := r.active.Other())
  }

  /** The references once `open` has gone back to the other copy of the blocks in `bad`. */
  function TurnedAll(blocks: seq<DirBlockRef>, bad: set<nat>): seq<DirBlockRef> {
    seq(|blocks|, b requires 0 <= b < |blocks| => if b in bad then Turned(blocks[b]) else blocks[b])
  }

  /** Page 0 and the active metadata page of state m are intact. */
  ghost predicate HoldsCore(g: Geometry, m: Mem, file: seq<Page>) {
    && MetaFits(g, m.meta) && IndexFits(g, m.blocks) && |file| >= 4
    && file[0] == Page0(g, m) && file[m.active.PageId()] == MetaBytes(g, m.meta)
  }

  /** With the core intact, the answer is decided by the directory pages. */
  lemma CoreOpens(g: Geometry, m: Mem, file: seq<Page>)
    requires HoldsCore(g, m, file)
    ensures
      Open(g, file) ==
      match LoadDirs(g, file, m.blocks)
      case None => Err(CorruptProtectedDirectory)
      case Some((blocks, dirs)) => Ok(Mem(m.meta, m.active, blocks, dirs))
  {
    hide ParseSuper, ParseIndex, ParseMeta, LoadDirs, Page0Bytes, MetaBytes, ValidMagic, MetaFits, IndexFits;
    SuperReads(g, m.active, g.crc(MetaBytes(g, m.meta)), m.blocks);
    MetaRoundTrip(g, m.meta);
  }

  /** The first copy of a block is damaged, the second holds d; or the first holds d. */
  ghost predicate Salvageable(g: Geometry, file: seq<Page>, r: DirBlockRef, bad: bool, d: DirPage) {
    && DirFits(g, d) && r.Active() < |file| && r.Inactive() < |file|
    && (if bad then Damaged(g, file[r.Active()]) && file[r.Inactive()] == DirBytes(g, d)
        else file[r.Active()] == DirBytes(g, d))
  }

  lemma SalvagedBlock(g: Geometry, file: seq<Page>, r: DirBlockRef, bad: bool, d: DirPage)
    requires Salvageable(g, file, r, bad, d)
    ensures LoadsBlock(g, file, r, if bad then Turned(r) else r, d)
  {
    hide Damaged, DirBytes, SaysDir, DirFits;
    DirStored(g, d);
    if bad {
      DamagedSaysNothing(g, file[r.Active()]);
    }
  }

  /** `open` on a file in which some blocks have a damaged active copy: those turn to their other
      copy, all others keep theirs, and nothing else is affected. */
  lemma OpenSalvages(g: Geometry, m: Mem, file: seq<Page>, bad: set<nat>, dirs: seq<DirPage>)
    requires HoldsCore(g, m, file) && |dirs| == |m.blocks|
    requires forall b :: 0 <= b < |dirs| ==> Salvageable(g, file, m.blocks[b], b in bad, dirs[b])
    ensures Open(g, file) == Ok(Mem(m.meta, m.active, TurnedAll(m.blocks, bad), dirs))
  {
    hide HoldsCore, Open, LoadsBlock, LoadDirs, Salvageable, Turned;
    forall b | 0 <= b < |dirs|
      ensures LoadsBlock(g, file, m.blocks[b], TurnedAll(m.blocks, bad)[b], dirs[b])
    {
      SalvagedBlock(g, file, m.blocks[b], b in bad, dirs[b]);
    }
    DirsLoaded(g, file, m.blocks, TurnedAll(m.blocks, bad), dirs);
    CoreOpens(g, m, file);
  }

  /** A block both of whose copies are damaged: `open` fails. */
  lemma OpenGivesUp(g: Geometry, m: Mem, file: seq<Page>, b: nat)
    requires HoldsCore(g, m, file) && b < |m.blocks|
    requires m.blocks[b].pageA < |file| && m.blocks[b].pageB < |file|
    requires Damaged(g, file[m.blocks[b].pageA]) && Damaged(g, file[m.blocks[b].pageB])
    ensures Open(g, file) == Err(CorruptProtectedDirectory)
  {
    hide HoldsCore, Open, LoadDirs, Damaged, SaysDir;
    DamagedSaysNothing(g, file[m.blocks[b].pageA]);
    DamagedSaysNothing(g, file[m.blocks[b].pageB]);
    assert Unloadable(g, file, m.blocks[b]);
    DirsUnloadable(g, file, m.blocks);
    CoreOpens(g, m, file);
  }
}
