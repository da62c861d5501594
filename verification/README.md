# A crash-consistent pager, modelled and proved

This project models a memory-mapped, file-backed page store: a bitmap allocator with doubling
growth, a double-buffered metadata commit, protected (copy-on-write) pages kept in a directory of
their own, bulk operations, page iterators, and a slab allocator that cuts big pages into
sub-pages. It proves what the store promises: any crash at any step of any operation leaves a file
from which `open` rebuilds a legal state, and what users committed is still there.

## How it is built

Each operation exists twice. A *specification* is a function on the whole state of the pager:
memory, the mapped and the durable bytes of every page, and the list of disks the operation passes
through on its way (`PagerSpec`, `Bulk`, `ProtectedBulk`, `SubSlots`, `SubAllocation`). The
*program* is a class that updates its fields in place, statement by statement in the order of the
source (`MetaPage`, `Pager`, `ProtectedPageWriter`, the two iterators, `SubPageAllocator`, and the
serializers on byte arrays); each method is proved to compute its specification. The properties are
lemmas about the specifications and, where one call is concerned, postconditions of the methods.

| files | subject |
|---|---|
| `Bytes`, `Bits`, `Results`, `Sorting` | bytes, words, results, sorting |
| `Metadata`, `Layout`, `Formats`, `Serialization` | the bitmap, the on-disk formats, their writers and parsers |
| `Disks`, `Recovery`, `OpenRules`, `Salvage`, `Opening` | store, flush, resize, crash; `open` and `create` |
| `PagerSpec`, `Ownership`, `Shape` | the operations as functions, the invariants |
| `Safety`, `DirSafety`, `RawAllocation`, `DirChanges`, `Entries`, `Operations` | crash safety of commits, growth and every call |
| `Runs`, `Persistence`, `Durability`, `History`, `Copies`, `TornCommit` | whole runs, what users read back, what the file holds |
| `Accounting`, `GrowthBound`, `Checksums`, `Iterators` | conservation, size bounds, checksums, iteration |
| `Bulk`, `ProtectedBulk` | bulk calls |
| `Frames`, `Contents`, `Refusals` | which pages a call writes to, the bytes of regular pages, the errors |
| `LostMapping`, `Parity`, `Leaks`, `Stranding` | exact conditions where a promise fails |
| `PagerSteps`, `Pagers` | class `Pager` |
| `SubSlots`, `SubAllocation`, `SubSafety`, `SubRuns`, `SubPicks`, `SubContents`, `SubRefusals`, `SubAllocators` | the sub-page allocator |

The central notions, from the bottom up:

- `Formats.Field` and the predicates built on it: what the bytes of a page say, without the writers
  and parsers; `OpenRules.Opens` says the same of a whole file.
- `Disks.CrashImage`: after a crash an unflushed page may hold any bytes; page 0 holds what it held
  before its last store or after it; flushed pages are intact. `TornImage` gives up the atomicity of
  page 0: each of its bytes is old or new.
- `Ownership.Consistent`: exact bitmap, and every page the directory refers to has one owner, is not
  reserved and is marked allocated.
- `RawAllocation.Steady`: a state between calls, whether the file is mapped or not; `Ready` when it
  is. Memory may be ahead of the file in its bitmap and generation, and entries freed without a
  mapping may still be in the directory on disk. `Runs.CreatedReady` shows that a newly created pager
  is in such a state, and `Runs.CallSafe` that every call leads from one to another.
- `Runs.IsRun`: any sequence of calls with their replies, of calls cut short at one of their disks
  with the file then turned into any crash image and reopened, and of reopenings between calls. A
  pager may lose its mapping, go on being called, and get it back.
- `Runs.View`: the store as its users see it, a map from the protected ids a reopening would find to
  their committed bytes, the ids the pager shows, and whether the file is mapped.

## Assumptions

- **Page 0 is written atomically** in runs and for directory commits. Plain metadata commits do not
  need this (`TornCommit.CommitIsAtomic`). `set_len` is durable when it returns.
- **The checksum is an arbitrary function** of bytes to 32 bits, a parameter of every definition.
- **Capacity**: `grow` doubles the file without asking whether the bitmap still fits its page.
  Allocating calls carry the condition that it does; `GrowthBound.RoomIsBound` gives it as a page
  count.
- **Callers keep to their own pages**: regular ids passed to `free`, `free_bulk` and `get_page_mut`
  are not pages the directory refers to, in memory or on disk. The source does not check this either.
- **Generations stay below 2^64**, and the page size is a power of two from 1024 to 2^36, so that the
  directory's slot count survives its cast to 32 bits.
- **The operating system** is a parameter of each allocating call: its answer to every growth the call
  asks for, which may be to extend and map the file, to refuse the length and map the file as it was
  or not, or to refuse the mapping and cut the file back or not. A failed flush is a crash.
- A `ProtectedPageWriter` starts from whatever the inactive copy held; contents are stated for pages
  committed at least once, as the complete staged page.

## Where code and documentation differ

- `Unavailable` is documented as final (src/pager.rs:37-42, src/error.rs:22-24). In the code every
  call that allocates more pages than are free grows again and may get the mapping back, and calls
  that have nothing to commit or touch never answer `Unavailable`. `LostMapping.CallAfterLoss` says
  for each call exactly when it does and when the file is mapped again; `LostMapping.RevivedPager` is
  a run of three calls.
- "On error no pages are allocated" (src/pager.rs:839) fails for `alloc_bulk` exactly on a pager
  without a mapping that has enough free pages: it answers `Unavailable` and keeps them
  (`LostMapping.FailedBulkKeeps`; `LostMapping.KeepingCall` is such a call).
- When `alloc_protected_bulk` fails, "all already-allocated protected pages are freed"
  (src/pager.rs:976-979). They are not when a growth after the first of them loses the mapping: the
  rollback then stops at each failed directory commit, so the ids are cleared from memory only, their
  pages stay allocated there too, and a reopening finds every one of them. That happens exactly under
  `Stranding.Strands`, a condition on the state before the call (`Stranding.AllocProtectedBulkExact`);
  `Stranding.StrandingCall` is such a call.
- The selector is A exactly when the generation is even only as long as no commit was attempted
  without a mapping: such a commit counts up the generation before it fails, so selector and
  generation are in step exactly when an even number of commits were (`Parity.CommitParity`,
  `Parity.ParityOfRun`). `LostMapping.OutOfStep` is a run of three calls that ends mapped with selector
  B at generation 2.
- `alloc_bulk` undoes its allocations when growth fails; `alloc_protected` does not
  (`Leaks.AllocProtectedLeaks` says exactly when, `Leaks.LeakingCall` is such a call). The pages are
  leaked, never lost.
- The head of src/meta.rs calls the superblock 28 bytes long; the code reads and writes 20.

## Model

| member | source | states |
|---|---|---|
| Metadata.FreeSlotIsSmallest | src/meta.rs:208-223 | `alloc_page` picks the smallest page whose bit is clear, and none exactly when the free count is zero, that is when every page is taken |
| Metadata.MarkAllocates | src/meta.rs:218-220 | the page picked, and only it, becomes allocated; bitmap length, zero padding, reserved pages and exact free count are kept |
| Metadata.UnmarkFrees | src/meta.rs:227-239 | freeing an allocated data page removes exactly that page from the allocated set and keeps the bitmap exact |
| Metadata.GrowKeepsAllocated | src/meta.rs:260-266 | growing keeps the allocated set, the zero padding and the exactness of the free count |
| Metadata.NewMetaExact | src/meta.rs:243-257 | a fresh bitmap of any page count marks exactly the reserved pages there are, three or the page count if that is smaller, has zero padding and an exact free count |
| Metadata.MetaPage.NewForCapacity | src/meta.rs:243-257 | the loop over the reserved pages builds that bitmap, for every page count |
| Metadata.MetaPage.AllocPage | src/meta.rs:208-223 | the in-place search returns the slot the specification picks and changes nothing else; `None` leaves the object as it was |
| Metadata.MetaPage.FreePage | src/meta.rs:227-239 | answers whether the page was allocated; clears exactly its bit, and is a no-op when it answers false |
| Metadata.MetaPage.GrowPages | src/meta.rs:260-266 | resizes the bitmap with zeros and counts the added pages as free |
| Layout.CountsAreLargest | src/meta.rs:56-64 | `max_dir_blocks` and `dir_entries_per_page` are the largest counts whose section, checksum included, fits a page; both fit 32 bits |
| Layout.MetaRoundTrip | src/meta.rs:160-199 | parsing what the metadata writer stored returns the same metadata, for every metadata that fits a page |
| Formats.RefStored | src/meta.rs:294-298 | a stored reference has page_a in bytes 0-7, page_b in bytes 8-15, least significant byte first, and the selector in byte 16 |
| Layout.RefRoundTrip | src/meta.rs:280-298 | directory block references survive writing and parsing |
| Layout.IndexRoundTrip | src/meta.rs:306-357 | the directory section of page 0 survives writing and parsing, for every number of references up to the maximum |
| Layout.Page0RoundTrip | src/meta.rs:125-147 | page 0 holds superblock and directory section at once: each parser reads back what its own writer stored |
| Formats.EntryStored | src/meta.rs:395-402 | a stored entry has the in-use flag in byte 0, page_a in 1-8, page_b in 9-16, the active slot in 17, the generation in 18-25 and the checksum in 26-29, least significant byte first |
| Layout.DirRoundTrip | src/meta.rs:423-462 | directory pages survive writing and parsing |
| Layout.IndexReadsTail | src/meta.rs:306-338 | the directory section is read from bytes 20 on only, so the superblock writer cannot disturb it |
| Formats.ParseSuperExact | src/meta.rs:125-139 | the superblock parser accepts exactly the bytes that say what it returns: magic 0-7, page size exponent 8-11, selector 12, checksum 16-19 |
| Formats.ParseMetaExact | src/meta.rs:160-186 | the metadata parser accepts exactly pages whose last four bytes are the checksum of the rest, with page count, generation and free count in bytes 0-23 and a bitmap that fits from byte 24 on |
| Formats.MetaMarks | src/meta.rs:208-239 | page p is bit p mod 8, from the least significant, of byte 24 + p / 8 |
| Formats.ParseIndexExact | src/meta.rs:306-338 | the section parser accepts exactly a zero count, or a sealed section whose references lie at 24 + 17 * i |
| Formats.ParseEntryExact | src/meta.rs:375-393 | the entry parser reads each field where the format has it |
| Formats.ParseDirExact | src/meta.rs:423-447 | the directory page parser accepts exactly pages whose last four bytes are the checksum of the rest, with the entries at 8 + 30 * i |
| Formats.MetaStored | src/meta.rs:188-199 | every byte of a stored metadata page: fields, bitmap, zeros, checksum |
| Formats.SuperStored | src/meta.rs:141-147 | every byte of a stored superblock |
| Formats.IndexStored | src/meta.rs:344-357 | every byte of a stored directory section: count, the references at 24 + 17 * i, zeros, checksum |
| Formats.DirStored | src/meta.rs:450-462 | every byte of a stored directory page: capacity, zeros, the entries at 8 + 30 * i with flags 0 or 1, zeros, checksum |
| Serialization.WriteMetaPage | src/meta.rs:188-199 | the field-by-field writer fills the whole buffer with the layout of the value, padding and checksum included, each field at its place |
| Serialization.WriteSuperblock | src/meta.rs:141-147 | writes bytes 0-19 and leaves every other byte of page 0 alone |
| Serialization.WriteDirBlocks | src/meta.rs:344-357 | the writing loop fills bytes 20 to the end with count, references, padding and checksum and leaves the superblock alone |
| Serialization.WritePage0 | src/pager.rs:767-773 | superblock writer and directory writer together fill a whole page 0, byte for byte the layout of both values |
| Serialization.WriteDirPage | src/meta.rs:450-462 | the writing loop fills the buffer with header, entries, padding and checksum |
| Serialization.ReadDirBlocks | src/meta.rs:306-338 | the parsing loop computes the recursive parser, including zero blocks, bad checksum, too large a count and a malformed reference |
| Serialization.ReadDirPage | src/meta.rs:423-447 | the parsing loop computes the recursive parser, including short pages, bad checksum and too large a capacity |
| Recovery.OpenRebuilds | src/pager.rs:141-234 | `open` on a file that holds a state rebuilds exactly that state: metadata, selector, directory blocks and directory pages |
| OpenRules.OpenExact | src/pager.rs:141-234 | `open` returns a state exactly when the bytes of the file hold it: tag, version and page size, the metadata page that is named and vouched for or else the other one, a sealed reference list, and for each block the copy named or else the other one with the selector turned |
| OpenRules.OpenRefusal | src/pager.rs:141-234 | which of the five errors `open` answers otherwise, by the first check that fails on the bytes |
| Salvage.OpenSalvages | src/pager.rs:194-224 | blocks whose active copy does not end in the checksum of its other bytes go back to their other copy with the selector turned; the others and the metadata are not affected |
| Salvage.OpenGivesUp | src/pager.rs:219-223 | when both copies of a block are damaged, `open` answers `CorruptProtectedDirectory` |
| Opening.WriteInitialFile | src/pager.rs:93-116 | `create` writes both metadata pages and page 0 of an empty pager |
| Opening.LoadAll | src/pager.rs:194-224 | the directory loader, with the looping parser: active page, else the other page with the selector corrected, else failure |
| Pagers.Pager.Create | src/pager.rs:73-126 | a new pager is in a state from which every crash is survivable, with no protected pages |
| Pagers.Pager.Open | src/pager.rs:141-234 | for every file, well-formed or not, the same outcome and error as the recovery function |
| Safety.CrashRecovers | src/pager.rs:141-234 | whatever bytes a crash leaves in unflushed pages, a state whose recovery pages are flushed is rebuilt exactly and its committed pages keep their bytes |
| Safety.PublishSafe | src/pager.rs:762-777 | store, flush, store page 0, flush: every disk on the way recovers to the old state or to the new one, and the new one is durable at the end |
| Safety.CommitSafe | src/pager.rs:752-782 | a bitmap commit succeeds while mapped, makes memory's bitmap durable next to the directory the file has, keeps the contents and is survivable at each step |
| DirSafety.CommitDirSafe | src/pager.rs:788-831 | a directory commit moves the durable contents from before the change to after it, with nothing in between |
| DirChanges.DirCommitReady | src/pager.rs:788-831 | a directory commit for one id, when other entries of its block were freed while the file was not mapped: the id is what it was set to, those others are gone, every other page keeps its bytes |
| DirSafety.IdOfSlot | src/pager.rs:344 | block and slot are recovered from the id block * epp + slot |
| DirSafety.SlotOfId | src/pager.rs:392-394 | every id is the id of its own block and slot |
| TornCommit.CommitIsAtomic | src/pager.rs:752-782 | metadata commit without atomic page writes: the inactive page torn to any bytes before its flush, page 0 any byte-by-byte mix, and still `open` returns exactly the old state or exactly that state with the new bitmap, the next generation and the other selector; nothing is assumed of the checksum |
| Durability.CommitKeepsPredecessor | src/pager.rs:752-782 | after a commit the other metadata page holds exactly the state active before; when the active page fails either of the two checks of `open`, that predecessor is recovered; damaging the other page changes nothing |
| History.PredecessorInRuns | src/pager.rs:170-189 | in every state of every run in which no call was cut short, reopenings and lost mappings included, the metadata page that is not active holds the bitmap committed before the last one, and `open` goes back to exactly that one when it rejects the active page |
| Copies.SalvagedInRuns | src/pager.rs:788-831 | in every state of every run in which no call was cut short, damaged active directory pages go back to exactly the pages committed before the last commit of their blocks, and everything else is found as it was |
| Copies.LostInRuns | src/pager.rs:219-223 | in every state of every run, a file with both copies of a directory block damaged does not open |
| Copies.CallTurns | src/pager.rs:788-831 | a call that succeeds turns the one block it commits to its other copy, or adds one; nothing else happens to the durable directory |
| Frames.CallFrame | src/pager.rs:241-675 | each call writes to page 0 and the inactive metadata page, to the inactive copy of the directory page it commits, to the inactive copy of the protected page or to the regular page it is about; every other page in use keeps its bytes in the mapping and in the file, and is as dirty as it was |
| Contents.RegularKept | src/pager.rs:241-675 | whatever a call answers, a regular page keeps its bytes unless the call is a write to it |
| Contents.RegularReadBack | src/pager.rs:578-603 | in runs, what the caller last wrote to a page it holds is what `get_page` returns, whatever calls come between |
| Durability.MemoryMatchesDisk | src/pager.rs:141-234 | at the end of every run without I/O errors, crashes and reopenings included, `open` applied to the durable bytes rebuilds exactly the memory of the pager |
| Durability.CrashLosesNothing | src/pager.rs:318-414 | whatever disk of a call a crash catches and whatever it leaves of the file, `open` succeeds, and every page that was allocated in memory and on disk and that the call was not asked to release is allocated in the state `open` returns: pages may leak but are never lost |
| Durability.FileCovers | src/pager.rs:1160-1186 | the file is at least as long as the page count in memory and on disk, and so is every image of it after a crash |
| Durability.FileCoversDuringCall | src/pager.rs:1160-1186 | the same for every disk a call passes through: growing, failing to grow, growing repeatedly |
| Ownership.EntriesDistinct | src/pager.rs:344-350 | two in-use entries never share a backing page |
| Ownership.BlocksAndEntriesDistinct | src/pager.rs:354-376 | no directory page is a backing page |
| Persistence.DirectoryNeverDangles | src/pager.rs:318-414 | in every state of every run, lost mappings and revivals included, memory and the durable state refer to directory and backing pages that are pairwise distinct, at least 3, inside the file and marked allocated |
| RawAllocation.GrowMakesRoom | src/pager.rs:740-746 | after a successful growth there is a free page, so the `expect` never fires |
| RawAllocation.GrowFails | src/pager.rs:1160-1186 | each failing branch of `grow` leaves memory alone and the durable state survivable |
| RawAllocation.GrowSucceeds | src/pager.rs:1174-1178 | a successful growth doubles the bitmap in memory only; the durable state survives |
| LostMapping.GrowFile | src/pager.rs:1160-1186 | what a growth leaves of the file: nothing changed, extended, or cut back, every page there was kept and new ones zero |
| RawAllocation.RawsSafe | src/pager.rs:740-746 | any number of raw allocations keeps the invariant and takes distinct, unreserved, previously free pages |
| Operations.AllocSafe | src/pager.rs:241-245 | `alloc`, mapped or not, is survivable at each step and ends in a good state, mapped when it succeeds |
| Operations.FreeSafe | src/pager.rs:250-262 | `free` likewise, with its exact answer; on a mapped file an error changes nothing |
| Operations.FreeAnswers | src/pager.rs:250-262 | `ReservedPage` exactly for pages 0-2, `OutOfBounds` exactly beyond the page count, `DoubleFree` exactly for other pages that are not in use, `Unavailable` exactly for pages in use without a mapping |
| Refusals.FreeInRuns | src/pager.rs:250-262 | the same in terms of the replies: `DoubleFree` exactly for pages inside the file that the caller does not hold |
| Refusals.AllocAnswers | src/pager.rs:241-245 | `Io` exactly when no page is free and the growth is refused, `Unavailable` exactly when one is free and there is no mapping; success hands out the smallest page not in use |
| Refusals.AllocBulkAnswers | src/pager.rs:843-862 | the same for `alloc_bulk` and the growths it needs |
| Refusals.AccessAnswers | src/pager.rs:578-603 | reserved, beyond the file, no mapping: which error `get_page` and `get_page_mut` answer, and exactly when |
| Refusals.FreeBulkAnswers | src/pager.rs:872-903 | `free_bulk` reports a repeated id, else a reserved page, else a page not in use, else one beyond the file |
| Refusals.FreeProtectedAnswers | src/pager.rs:388-414 | `OutOfBounds` exactly beyond the slots of the directory, `DoubleFree` exactly for slots not in use, `Unavailable` exactly for ids in use without a mapping |
| Refusals.ProtectedAccessAnswers | src/pager.rs:605-642 | `OutOfBounds` exactly for ids not in use, `Unavailable` exactly for ids in use without a mapping, for reading, staging and writing |
| Refusals.CopiesAccessed | src/pager.rs:605-642 | slot 0 names page_a: a read returns the copy the active slot names, and a writer stores into the other one |
| Refusals.FreeProtectedBulkAnswers | src/pager.rs:1014-1048 | `free_protected_bulk` reports a repeated id, else one not in use, else one beyond the directory |
| Operations.AllocProtectedSafe | src/pager.rs:318-382 | bitmap commit, then directory commit: every crash finds the old directory or the new id; a failed growth or a missing mapping leaves the contents alone; asks for room only for the pages the call takes where it stands, none, two or four |
| Operations.FreeProtectedSafe | src/pager.rs:388-414 | succeeds exactly for ids in use on a mapped file; directory commit, then bitmap commit, survivable at each step; answers `Unavailable` exactly for ids in use without a mapping; an id not in use changes nothing |
| Operations.CommitWriteSafe | src/pager.rs:645-675 | the staged bytes become the page; every crash finds the old contents or those bytes |
| Operations.WriteProtectedSafe | src/protected.rs:51-76 | from `get_mut` to the end of `commit` the page is its old contents or the whole new page at every step; succeeds exactly for ids in use on a mapped file |
| Runs.FirstSlotIsSmallest | src/pager.rs:319-345 | the first free slot of the first block with one has the smallest id not in use |
| Runs.NewIdIsSmallest | src/pager.rs:318-382 | `alloc_protected` returns the smallest id not in use |
| Runs.CallSafe | src/pager.rs:241-414 | every call, from every state between calls, mapped or not, ends in such a state, does to the protected pages what its reply says, and passes only through disks that recover to before or after |
| Runs.CrashDuringCall | src/pager.rs:141-234 | no crash in the middle of a call is fatal: `open` succeeds and finds the contents before the call or after it |
| Runs.EventRefines | src/pager.rs:141-234 | a completed call with its reply, an interrupted call with its recovery, and a reopening each refine a step of the abstract page store |
| Runs.RunRefines | src/pager.rs:752-831 | whole runs of calls, crashes at any step and reopenings, with calls on a pager that lost its mapping and on one that got it back, refine runs of the abstract store, and the full invariant holds in every state |
| Runs.NothingPending | src/pager.rs:388-402 | as long as every page that a reopening would find is shown, a directory commit leaves all other pages exactly as they were |
| Runs.DisksAreWhole | src/pager.rs:141-234 | in every state of every run each page, mapped or durable, is one page long, and the durable bytes are a crash image that `open` accepts |
| Runs.CallDisksAreWhole | src/pager.rs:752-831 | every disk a call passes through consists of whole pages and has a crash image |
| Persistence.ReadsContents | src/pager.rs:605-620 | a protected read answers for exactly the ids in use while the file is mapped, and returns the last committed bytes |
| Persistence.WritePersists | src/protected.rs:68-75 | a write that returned success is what every later read returns, whatever calls, crashes, lost mappings and reopenings come between, until that page is written or freed |
| Persistence.InterruptedWrite | src/protected.rs:51-76 | a crash anywhere between `get_mut` and the end of `commit`: the page reads as the old bytes or the complete staged ones, every other committed page keeps its bytes |
| Accounting.PartitionOfAllocated | src/pager.rs:685-699 | the set bits of the bitmap are the reserved, regular, directory and backing pages, no page in two of them |
| Accounting.Conservation | src/meta.rs:208-267 | total = 3 + free + regular + 2 * directory blocks + 2 * entries in use, and the free count is the number of clear bits below the page count |
| Accounting.CallTracksRegular | src/pager.rs:241-262 | after a call that succeeded or changed nothing, the regular pages are those its reply accounts for |
| Accounting.LiveIsRegular | src/pager.rs:241-262 | over crash-free runs the regular pages are exactly those the replies gave out and did not take back, computed from calls and replies alone |
| Accounting.RunConserves | src/pager.rs:318-414 | conservation over crash-free runs, stated with the pages the caller holds |
| GrowthBound.BitmapFitsExactly | src/pager.rs:1160-1163 | for every power-of-two page size from 1024 on, the bitmap of 4 * 2^n pages fits its page exactly when there are at most 4 * PAGE_SIZE pages |
| GrowthBound.ReachableTotals | src/pager.rs:83 | every reachable page count is 4 * 2^n and at most 4 * PAGE_SIZE, and the serializer's slices are in range |
| GrowthBound.RoomIsBound | src/meta.rs:188-199 | the capacity condition on growth is exactly that bound |
| Sorting.SortedTest | src/pager.rs:876-883 | sorting and comparing neighbours decides whether the ids are distinct |
| Sorting.AnyNeighboursEqual | src/pager.rs:879-883 | the windows loop finds an equal neighbour exactly when there is one |
| Bulk.RawsTakeSmallest | src/pager.rs:847-859 | raw allocations take the smallest free pages in increasing order and grow to the first doubling that holds them |
| Bulk.GrownTotalIsLeast | src/pager.rs:1160-1163 | that page count is reached by doubling, makes enough pages free, and half of it would not |
| Bulk.AllocBulkExact | src/pager.rs:843-862 | on a mapped file success returns the count smallest free pages of the grown file in increasing order; a failed growth leaves the allocated set as it was |
| Bulk.BulkIsSingles | src/pager.rs:835-840 | `alloc_bulk` succeeds exactly when that many single `alloc` calls all do, and then returns the same pages and leaves the same bitmap; a failure is the same failure |
| Bulk.FreeBulkExact | src/pager.rs:872-903 | succeeds exactly for distinct allocated data pages, removes exactly that set in one generation step, and changes nothing on an error |
| Bulk.FreeBulkIsSingles | src/pager.rs:864-869 | the same bitmap as single `free` calls on the same ids, in any order |
| ProtectedBulk.FreeProtectedBulkExact | src/pager.rs:1014-1048 | succeeds exactly for distinct ids in use, removes exactly those and frees both backing pages of each; changes nothing on an error |
| ProtectedBulk.AllocProtectedBulkViews | src/pager.rs:982-1003 | the bulk call passes through the view in which every id obtained is shown, and a failed one ends with those ids hidden again; asks for room call by call, for what each takes |
| ProtectedBulk.FourEachIsRoom | src/pager.rs:318-382 | room for four pages a call is always room for each call |
| ProtectedBulk.AllocProtectedEffect | src/pager.rs:318-382 | the new entry is on two pages that were free, first copy active, generation 0; every other id keeps its backing pages, active copy, generation and checksum; a failure touches no entry |
| ProtectedBulk.AllocProtectedPages | src/pager.rs:318-382 | the pages taken are the smallest free ones in increasing order: two for the page, or for a new directory block first its two copies, the second of which becomes active, then the two for the page |
| ProtectedBulk.FreeProtectedEffect | src/pager.rs:388-414 | gives back exactly the two backing pages, in one generation step, and leaves every other entry alone |
| ProtectedBulk.WriteProtectedEffect | src/pager.rs:645-675 | a protected write swaps the two copies of its own page, counts up its generation and touches no other entry |
| Checksums.ChecksumsThroughout | src/pager.rs:645-675 | in crash-free runs, mapped or not, every entry in use stores the checksum of its active page, and its active copy is generation mod 2 |
| LostMapping.AllocAfterLoss | src/pager.rs:740-746 | on every exact bitmap without a mapping `alloc` answers `Unavailable` exactly when a page is free, succeeds exactly when none is and the file can now be doubled and mapped, and leaves the file mapped exactly then or when `set_len` refused and the file as it was could be mapped |
| LostMapping.RawsOutcome | src/pager.rs:1160-1186 | any number of raw allocations, mapped or not: exactly when they all succeed and exactly when the file is mapped afterwards |
| LostMapping.AllocProtectedOutcome | src/pager.rs:318-382 | `alloc_protected`, mapped or not: `DirectoryFull`, `Unavailable`, `Io` or success, each exactly when, and whether the file is mapped afterwards |
| LostMapping.CallAfterLoss | src/pager.rs:37-42 | each of the nine calls without a mapping: exactly when it answers `Unavailable` and exactly when the file is mapped again, which only calls that allocate more pages than are free bring about |
| LostMapping.FailedBulkKeeps | src/pager.rs:835-862 | `alloc_bulk` fails exactly when the file cannot be doubled until enough pages are free, and then leaves no page allocated, or when enough are free and the file is not mapped, and then keeps all of them |
| LostMapping.KeepingCall | src/pager.rs:835-862 | two calls on a new file: the first loses the mapping, the second answers `Unavailable` and keeps page 3 |
| LostMapping.RevivedPager | src/pager.rs:1160-1186 | three calls on a new file that lose the mapping and get it back, against the documented finality of `Unavailable` |
| LostMapping.OutOfStep | src/pager.rs:752-782 | three calls on a new file after which a mapped pager has selector B at generation 2 |
| Parity.CommitParity | src/pager.rs:752-782 | from any state: after a commit selector and generation are in step exactly when they were and the file was mapped, or they were not and it was not |
| Parity.CallParity | src/pager.rs:241-414 | from any state a call changes whether they are in step exactly when it tried to commit the bitmap without a mapping |
| Parity.ParityOfRun | src/pager.rs:752-782 | in every state of every run, crashes included, the selector is A exactly at even generations exactly when an even number of commits were attempted without a mapping: in memory counting all, in the file those before its last commit |
| Leaks.AllocProtectedLeaks | src/pager.rs:353-358 | `alloc_protected` on a mapped file fails exactly when the directory is full, or fewer pages are free than the call takes and the file cannot be doubled; full, it changes nothing; short of pages, it leaves every free page allocated, so it leaks exactly when some page was free |
| Leaks.LeakingCall | src/pager.rs:353-358 | such a call on a new file: it fails, and page 3 stays allocated |
| Stranding.AllocEachOutcome | src/pager.rs:318-382 | any number of single `alloc_protected` calls in a row, from any exact bitmap: how many succeed, which error stops them and whether it costs the mapping, all from the free slots, the free pages and the growths granted before the first of them |
| Stranding.AllocProtectedBulkExact | src/pager.rs:970-1003 | known before the call: it succeeds exactly when that many pages are obtainable and allocates in turn the smallest unused ids; when it fails, no more ids are in use than before, and the pages obtained are gone from the file as well, except exactly when a growth after the first page loses the mapping: then a reopening finds every one of them and in memory no page is free |
| Stranding.DemandIsRoom | src/pager.rs:982-1003 | room for the pages that the calls take in all, two for a free slot and four for a new directory page, is room for each of them |
| Stranding.StrandingCall | src/pager.rs:970-1003 | a call for two pages on a new file that fails, shows no page and leaves page 0 in the file |
| Pagers.Pager.Grow | src/pager.rs:1160-1186 | drop the mapping, extend, remap or roll back, exactly as specified, all three failures included |
| Pagers.Pager.AllocOneRaw | src/pager.rs:740-746 | smallest free page, growing once; returns a page inside the file |
| Pagers.Pager.Commit | src/pager.rs:752-782 | serializes, stores, flushes and flips in the source's order; memory, disk and the disks passed through are those of the specification |
| Pagers.Pager.CommitDirBlock | src/pager.rs:788-831 | the same for one directory block |
| Pagers.Pager.Alloc | src/pager.rs:241-245 | computes the specified state and reply; in an allowed call the invariant holds again and every step was survivable |
| Pagers.Pager.Free | src/pager.rs:250-262 | the same for `free`, with its three error replies |
| Pagers.Pager.WritePage | src/pager.rs:590-603 | the same for a store of a whole page through `get_page_mut` |
| Pagers.Pager.GetPage | src/pager.rs:578-588 | the bytes of the page or the error of the first failing check |
| Pagers.Pager.AllocBulk | src/pager.rs:843-862 | the allocating loop and the rollback loop compute the specified state and reply |
| Pagers.Pager.FreeBulk | src/pager.rs:872-903 | sort, windows, validation loop, freeing loop and one commit compute the specified state and reply |
| Pagers.Pager.AllocProtected | src/pager.rs:318-382 | the search for a free slot and both allocation paths compute the specified state and reply, given room for the pages the call takes where it stands |
| Pagers.Pager.FreeProtected | src/pager.rs:388-414 | directory first, bitmap second; computes the specified state and reply |
| Pagers.Pager.GetProtectedPage | src/pager.rs:605-620 | the active copy, for exactly the ids in use while mapped; the committed bytes |
| Pagers.Pager.GetProtectedPageMut | src/pager.rs:622-642 | a writer for the inactive copy of an id in use, or the error of the first failing check |
| Pagers.Pager.CommitProtectedWrite | src/pager.rs:645-675 | flush, checksum, entry, directory commit; the staged bytes become the contents |
| Pagers.Pager.AllocProtectedBulk | src/pager.rs:982-1003 | single allocations with rollback on failure; succeeds exactly when that many pages are obtainable; on success the smallest unused ids in turn, on failure the ids there were, in the file too unless pages are stranded |
| Pagers.Pager.FreeProtectedBulk | src/pager.rs:1014-1048 | validation, then single frees; all or nothing |
| Pagers.ProtectedPageWriter.Write | src/protected.rs:55-66 | a store into the inactive copy; contents are unchanged |
| Pagers.ProtectedPageWriter.Commit | src/protected.rs:72-75 | the bytes staged in the inactive copy become the page; survivable at each step |
| Iterators.IsInternalPage | src/pager.rs:685-699 | true for exactly the pages the directory refers to |
| Iterators.RegularEnumerated | src/pager.rs:1127-1132 | the regular iterator enumerates exactly the regular pages in strictly increasing order |
| Iterators.AllocatedPageIter.Next | src/pager.rs:1204-1217 | yields the first element of what is left and leaves the rest; `None` only when nothing is left |
| Iterators.ProtectedEnumerated | src/pager.rs:1145-1151 | the protected iterator enumerates exactly the ids in use in strictly increasing order |
| Iterators.AllocatedProtectedPageIter.Next | src/pager.rs:1236-1252 | yields the first element of what is left and leaves the rest; `None` only when nothing is left |
| Iterators.IteratorsInRuns | src/pager.rs:1189-1253 | in crash-free runs the iterators yield exactly the pages the caller holds and the protected ids the abstract run shows at its end |
| SubSlots.FullMaskIsOnes | src/sub_allocator.rs:87-93 | the full mask is n ones for every n up to and including 64 |
| SubSlots.LiveChecks | src/sub_allocator.rs:318-331 | under the slot invariant the four checks accept exactly the live ids |
| SubSlots.TakeBitEffect | src/sub_allocator.rs:178-190 | taking the lowest clear bit makes exactly one id live, within the page, that was not, and keeps masks nonzero and within the full mask |
| SubSlots.AddBigEffect | src/sub_allocator.rs:192-216 | a fresh big page, in a tombstone or at the end, makes exactly one id live and keeps big pages distinct |
| SubSlots.ClearOneEffect | src/sub_allocator.rs:256-267 | clearing a live bit removes exactly that id; the slot becomes a tombstone exactly when its big page leaves the table |
| SubSlots.ClearAllEffect | src/sub_allocator.rs:333-345 | clearing several live ids removes exactly those; the pages to release are exactly the emptied big pages, each once |
| SubAllocation.SubAllocPicks | src/sub_allocator.rs:150-217 | as long as some sub-page of its big pages is free, the first of them in slot order is handed out and the pager is not called; otherwise one page is asked for, goes to the first tombstone or the end, and its first sub-page is handed out |
| SubPicks.SubAllocAddsOne | src/sub_allocator.rs:192-216 | when all sub-pages are taken, a success adds exactly one big page |
| SubPicks.PackedStep | src/sub_allocator.rs:178-216 | on a new allocator the k-th sub-page, counting from 0, is sub-page k mod n of big page k / n, whatever the growths |
| SubPicks.NewAllocatorPacks | src/sub_allocator.rs:278-300 | k sub-pages on a new allocator are the first k in order and take ceil(k / n) big pages |
| SubSlots.SortedLive | src/sub_allocator.rs:310-331 | sort, windows and validation accept exactly distinct live ids |
| SubAllocation.SubAllocSafe | src/sub_allocator.rs:150-217 | hands out a sub-page that was not live, changes no other, keeps every big page allocated and outside the directory, in memory and on disk; a failure changes no slot and, while the file is mapped, nothing else |
| SubAllocation.SubFreeExact | src/sub_allocator.rs:219-269 | on a mapped file succeeds exactly for live ids, removes exactly that id, releases the big page exactly when it became empty; an error changes nothing |
| SubAllocation.SubFreeSafe | src/sub_allocator.rs:219-269 | mapped or not, a live id is gone afterwards even when releasing its big page fails, and the pages that are not the allocator's are as they were |
| SubSafety.SubFreeBulkExact | src/sub_allocator.rs:302-350 | on a mapped file succeeds exactly when the ids are distinct and all live; removes exactly those, releases each emptied big page once; any error changes nothing |
| SubSafety.SubFreeBulkSafe | src/sub_allocator.rs:346-348 | without a mapping too it leaves a sound table and loses no page that is not the allocator's |
| SubSafety.BulkIsSingleFrees | src/sub_allocator.rs:302-350 | the same slots and the same pager memory as freeing one by one, in any order |
| SubSafety.FreeAllRestores | src/sub_allocator.rs:302-350 | freeing every live sub-page leaves the pager with exactly the pages that were never the allocator's |
| SubSafety.SubAllocBulkExact | src/sub_allocator.rs:278-300 | success hands out that many distinct ids; failure leaves exactly the live ids there were, even when the mapping was lost, and exactly the other pages there were if the file was mapped to begin with |
| SubRuns.RangesDisjoint | src/sub_allocator.rs:394-406 | two different sub-pages never share a byte of the file |
| SubRuns.RangeInFile | src/sub_allocator.rs:404-406 | every sub-page lies inside the file, after the reserved pages |
| SubRuns.PagesFit | src/sub_allocator.rs:404-406 | every big page is one page long, so the slice taken from it is in range |
| SubRuns.WriteIsLocal | src/sub_allocator.rs:409-458 | a write is read back from its own sub-page and changes no other |
| SubContents.CallKeepsReads | src/sub_allocator.rs:150-350 | every call on a file that stays mapped: each live sub-page that it neither frees nor writes to reads the same bytes afterwards |
| SubContents.SubReadBack | src/sub_allocator.rs:365-458 | in runs, what was last written to a live sub-page is what it reads until it is written to again or freed |
| SubRefusals.SubFreeAnswers | src/sub_allocator.rs:219-269 | `OutOfBounds` exactly for ids the table has no slot for, `DoubleFree` exactly for others that are not live, `Unavailable` exactly for the last live sub-page of its big page without a mapping |
| SubRefusals.SubFreeBulkAnswers | src/sub_allocator.rs:302-331 | a repeated id, else the first id in order that is not live decides the error |
| SubRefusals.SubAccessAnswers | src/sub_allocator.rs:365-458 | which error `get` and `get_mut` answer, and exactly when; any id whose slot holds a big page is accepted; sub-page i is the bytes from i * SUB_SIZE of that page |
| SubRuns.SubRunSafe | src/sub_allocator.rs:150-350 | in every state of every run, lost mappings included, the slots are sound, big pages are distinct and outside the directory, the pager's invariant and contents are untouched, and no page allocated before the allocator came is given away |
| SubRuns.DisjointInRuns | src/sub_allocator.rs:394-406 | disjointness and the reserved pages, and slices in range, in every state of every run |
| SubAllocators.SubPageAllocator.Alloc | src/sub_allocator.rs:150-217 | both passes and the tombstone search compute the specified slots, pager and reply |
| SubAllocators.SubPageAllocator.PlaceBig | src/sub_allocator.rs:199-216 | the first tombstone, or the end of the table |
| SubAllocators.SubPageAllocator.Free | src/sub_allocator.rs:219-269 | computes the specified slots, pager and reply |
| SubAllocators.SubPageAllocator.AllocBulk | src/sub_allocator.rs:278-300 | the loop and its rollback compute the specified state |
| SubAllocators.SubPageAllocator.FreeBulk | src/sub_allocator.rs:302-350 | all phases compute the specified state; while mapped it succeeds exactly for distinct live ids |
| SubAllocators.SubPageAllocator.ClearBits | src/sub_allocator.rs:333-345 | the `unwrap` of the clearing loop never meets a tombstone |
| SubAllocators.SubPageAllocator.ReleaseEach | src/sub_allocator.rs:346-348 | releases the emptied pages one by one, keeping the pager's invariant |
| SubAllocators.SubPageAllocator.Get | src/sub_allocator.rs:365-407 | the bytes of the sub-page or the error of the first failing check |
| SubAllocators.SubPageAllocator.Write | src/sub_allocator.rs:409-458 | a store of the whole sub-page through `get_mut` |

## Left out

- Accounting.RunConserves: for runs whose calls succeed or fail without changing memory; `Leaks` says what the remaining failures do.
- Contents.RegularReadBack: for runs whose calls succeed or fail without changing memory; `RegularKept` holds of every call.
- Refusals.FreeInRuns: for the same runs, and pages the directory does not refer to; `FreeAnswers` holds of every state.
- Copies.SalvagedInRuns: a block has a page to go back to once it has been committed twice; before that its other copy holds whatever the page held.
- Files whose length is no multiple of the page size: pages are whole in the model, only page 0 may be short.
- SubAllocators.SubPageAllocator.Alloc: slot indices are unbounded; the source casts them to 32 bits, which matters from 2^32 simultaneously occupied big pages on.
- Directory commits with a torn page 0: the directory section is then rejected by its checksum, so `open` fails; the model assumes page 0 atomic there.
- Corruption of the active metadata page by other causes than a crash, beyond `CommitKeepsPredecessor` and `PredecessorInRuns`: the older bitmap may disagree with the newer directory.
- Crashes inside `create`, and files not written by this pager: runs start from a created file. `Pager.Open` is nevertheless specified for every file.
- Bulk calls on protected pages are no events of their own in runs: they are the single calls they consist of, and `ProtectedBulk` says what they add up to.
- Several stores through one borrowed page are modelled as stores of whole pages, one call each.
- Byte offsets as machine integers: pages are indexed, so `id * PAGE_SIZE` cannot wrap in the model.
- Concurrency (src/concurrent.rs), the read-only pager (src/readonly.rs), the `*_async` methods, trait forwarding, handle types and error texts: they repeat or forward the calls modelled here.
- The CRC-32 algorithm, file opening, and flags and permissions of the mapping.
- Version compatibility beyond the check `open` makes.
