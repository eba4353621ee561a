# A verified model of scalloc, the ephemeral-hash stack and smemset

The project models three pieces of C code in Dafny and proves what they promise.

**scalloc** (`scalloc/src/scalloc.c`) is a heap in the ptmalloc tradition. One arena is cut into chunks with
sizes, flags and footers stored in the memory they describe. Freed chunks are kept in fastbins, in 128
circular doubly linked bins (the large ones sorted, with a second ring through the distinct sizes), in a
binmap that says which bins may hold something, and in a thread cache with masked links. The model fixes the
64-bit configuration (8-byte sizes, alignment 16, smallest chunk 32 bytes), the main arena and one thread.

- Memory is an unbounded array of 8-byte words, kept in two banks: the words at multiples of 16 (`e`, where
  `mchunk_prev_size`, `fd` and `fd_nextsize` lie) and those 8 bytes further on (`o`, for `mchunk_size`, `bk`,
  `bk_nextsize`). Headers, footers, links, bin headers and list heads are words of that memory, and every
  operation is a sequence of stores to it. The word a block shares with the `mchunk_prev_size` of the next
  chunk is part of the block, and the `fd_nextsize` of a bin header is the `fd` of the next bin, as in C.
- A ghost map from chunk addresses to sizes and uses (live, on a list at a certain rank, on a bin at a certain
  rank, fencepost, gap, or owned by the operation under way) is the heap as it should be. `Sound` says that
  memory and map agree: the chunks tile the segment up to top, the tags are right, every list and ring spells
  out just the chunks that belong there, in order. `Settled`, which holds between calls, adds the state of
  top, the system break, that the fastbins are empty unless `have_fastchunks` is set, and what is known of memory
  behind the arena; `Recorded` says that all of that was never written from `sbrk_base + max_system_mem` on.
- `malloc_printerr` and `assert` in the source are branches with `assert false` in the model: that the
  methods verify shows that no such check can fire for a client that frees and resizes only what it holds and
  writes only within usable bytes. A block that is freed again while it is in the cache with its key intact is found
  out (`Libc.LibcFree`).
- The system is a parameter: a sequence of answers to the calls of MORECORE. An answer says how far others have
  moved the break before the call, whether an increase is refused, how many pages of a decrease are taken, and
  what others wrote to memory of theirs. Whatever is proved holds for every such sequence, with one proviso: an
  answer that refuses the second of the two requests of one call counts as met unless the break is on a
  page boundary (`Growth.RefusesMore`, and the second point below).
- The contracts of malloc, calloc, memalign, realloc and free determine the course of a call from the state before it, or
  from what consolidation made of that: whether the cache, a fastbin, the unsorted list, a bin, top or the system
  serves it, which chunk is taken, what becomes of the others, and when NULL comes back. `Libc.Mallocs`,
  `Zeroing.Callocs`, `Aligned.Memaligns`, `Libc.Reallocs` and `Libc.Frees` state that on snapshots of the arena; below
  them `Malloc.Answered` does for one call of `_int_malloc`.
- `Runs.Client` is a client that frees and resizes only what it holds. It keeps a memory of its own that only its stores, calloc and realloc change,
  and every method of it shows that the real memory agrees with that one on every usable word of every block.
  `Runs.Run` runs any script and yields the views in between, each of which is what the operation makes of the
  one before; the lemmas behind it say what that means for whole runs.

**The lock-free stack** of ephemeral-hash-cas is a transition system: any number of threads, each with a
program counter, in any interleaving, with arbitrary tags or with those that the generator draws. **smemset** is the
aligned, unrolled fill, proved equal to a byte-by-byte fill on an array.

| files | what they hold |
|---|---|
| Sizes, Protect, Memory, Binmap | size classes, pointer masking, words and tags, the bit operations of the binmap |
| Heap, Layout, Walk, Rings, NextSizes, Lists, ListEntries, Link, Listing, Steps | the invariants, and how each kind of change to a list, a ring or the tiling keeps them |
| Arena, Unlink, UnlinkChunk, Free, Consolidate, System, FreeChunk | the arena's state, freeing, merging, consolidating, trimming |
| Tcache, ExactFit, Shelves, LargeBins, Split, Sorting, Unsorted, Search, Fit, Top, Malloc | the thread cache and allocation, step by step; what a pass over the unsorted list comes to, and which chunk is chosen |
| Growth, Segments, Trim | getting memory from the system: what comes of it and how it is done; giving it back |
| PlainHeaps, Starved, Regrown | runs that go wrong: memory that is lost again, memory that is not zero |
| Resize, Realloc, Memalign, DoubleFree, Libc, Zeroing, Aligned, Sums, Mallinfo | resizing, alignment, the public functions, the statistics |
| Checks | the allocator's own debugging checks |
| Runs | clients and whole runs |
| Mmap | chunks mapped directly |
| HashGenerator, EHashPtr, EHashStack, EHashRepeat | the tag generator, the packed pointer, the stack, and the run that defeats it |
| Smemset | the fill |

## What turned out false

- `sysmalloc` can return NULL although the system met every request. When others have moved the break, the
  remains of the old top are freed, and that can trigger a trim of the new top. `Segments.Sysmalloc` says that the
  call succeeds if and only if what it gets is enough, and `Growth.TrimStarves` when it is not: if the break was
  moved before the first request but not after the second, at least 65536 bytes of the old top are left, the
  new top reaches the trim threshold, and the system takes back more than the new top has to spare, which is
  less than two pages. `Starved.StarvedRun` is a run of malloc, free
  and malloc that ends so. Padded requests of
  up to 131072 - 32 - 2 * 4096 bytes, and those for which top grows in place, are safe (`Growth.NotStarved`).
- The remark that carrying on after a failed second MORECORE "might be enough to proceed without failing" is
  right, as far as the assertion at the start of the next call goes, exactly if the break was less than eight
  bytes past a page boundary (`Growth.WithoutCorrection`). One to seven bytes past it the size read is legal,
  but top no longer ends where `sbrk_base + system_mem` says, and its head carries the low bits of the break as
  flags. On the boundary nothing is off; that is where the model lets the second call fail.
- `_int_memalign` adds the alignment and MINSIZE to the padded size without a check. The sum wraps exactly if
  the alignment is, or is rounded up to, 2^63 and the request is one of the topmost 55
  (`Memalign.WrapsExactly`): at most 48 bytes would be asked for. The contracts leave out just these calls.
- `systrim` is to return memory, but with just MINSIZE bytes in top it makes the arena grow: what top has beyond
  MINSIZE is -1, and is compared with `pad` as an unsigned number. `Trim.Mtrim` says when: if and only if consolidation
  leaves MINSIZE in top, `pad` is below 2^63, the break is where the arena ends and the system agrees; it then grows
  by more than `pad` bytes. `Regrown.GrowingTrim` is a run of malloc and malloc_trim(0) that does. A pad
  from 2^63 to 2^64 - 4097 makes the code offer what top has not got (`System.OfferAtLeast`); the model leaves out those pads.
- calloc does not always return zeros. It goes by `max_system_mem`, which such growth does not raise, and with
  MORECORE_CLEARS 1 memory that was given back and got again keeps its contents. `Zeroing.LibcCalloc2` says which words
  it leaves as they were, and `Zeroing.ClearedExact` that the block is zero if and only if those were.
  `Regrown.CallocRun` is a run in which one of them is not. In any run in which no trim makes the arena grow all of calloc's
  blocks are zero (`Runs.CallocsZero`).
- The stack's documentation says that one-time hashes protect against ABA. Tags of 16 bits repeat within 65537 draws
  (`HashGenerator.TagsRepeat`), and whatever the seed there is a run, with just the tags its generator draws, in
  which a pop installs a node that is not in the stack (`EHashRepeat.EverySeedLoses`). `EHashStack.RunExact` says
  when memory holds the stack all along, and `EHashStack.EitherSuffices` what is enough for that. A push needs no
  condition in any run (`EHashStack.PushAlways`).
- The comment at lines 4076 to 4078 of scalloc.c that the loop of `_int_malloc` is the only place where chunks are put into
  bins does not hold of the code: `_int_free_create_chunk` puts small chunks straight into theirs. The model
  follows the code.

## Model

| member | source | states |
|---|---|---|
| Sizes.Request2SizeIsLeast | scalloc/src/scalloc.c:1311-1312 | The padded size is the least legal chunk size whose usable bytes cover the request. |
| Sizes.Request2SizeInverse | scalloc/src/scalloc.c:4978 | Padding the inner request of realloc, nb less 15, gives back nb. |
| Sizes.BinIndexMonotone | scalloc/src/scalloc.c:1594-1627 | A larger chunk never has a lower bin index, across all the scales and the border between small and large. |
| Sizes.BinIndexRange | scalloc/src/scalloc.c:1594-1627 | Every legal size has an index from 2 to 126, below 64 exactly if it is small. |
| Sizes.LargeTidxRange | scalloc/src/scalloc.c:3114-3119 | Sizes from 1024 bytes up to 4 MB have one of the twelve large cache bins. |
| Protect.MaskRoundTrip | scalloc/src/scalloc.c:334-336 | Revealing a protected pointer where it was protected gives it back, for all addresses. |
| Memory.HeadDecodes | scalloc/src/scalloc.c:1405-1432 | A head made of a size and a P bit yields both. |
| Binmap.MarkMarks | scalloc/src/scalloc.c:1718-1728 | Marking or unmarking a bin changes the mark of that bin and of no other. |
| Binmap.NoneAbove | scalloc/src/scalloc.c:4358-4365 | Once the bit is larger than the word, or has been shifted out, or the word is zero, no bit from there up is set. |
| Binmap.Advance | scalloc/src/scalloc.c:4372-4377 | As long as that test fails there is a set bit ahead, so the bit is never shifted out: the assertion holds. |
| Arena.MallocState.constructor | scalloc/src/scalloc.c:1961-1985 | `malloc_init_state` establishes the whole invariant with an empty heap. |
| Checks.HeadsCover | scalloc/src/scalloc.c:2083-2118 | A walk that goes on by what the head words say, and over the gap behind the last fencepost of a segment, ends at top and passes every byte up to there. |
| Checks.HeadsFind | scalloc/src/scalloc.c:2083-2118 | Every address from the first chunk up to top lies in exactly one chunk as the head words delimit them. |
| Checks.CheckFreeChunk | scalloc/src/scalloc.c:2124-2153 | `do_check_free_chunk` passes on every binned chunk: footer, P bits on both sides, alignment, links. |
| Checks.CheckInuseChunk | scalloc/src/scalloc.c:2159-2193 | `do_check_inuse_chunk` passes on every live block and every chunk in a fastbin or the cache. |
| Checks.CheckRemallocedChunk | scalloc/src/scalloc.c:2199-2223 | `do_check_remalloced_chunk` passes on every block an allocation grants. |
| Checks.CheckBinned | scalloc/src/scalloc.c:2354-2387 | Every chunk is in the bin of its index, sorted, with the nextsize links the check asks for. |
| Checks.CheckBin | scalloc/src/scalloc.c:2332-2395 | The loop over one bin passes on all chunks of the bin; a bin that is not marked is empty. |
| Checks.CheckFastbin | scalloc/src/scalloc.c:2299-2330 | The loop over one fastbin passes on all its chunks; the fastbins above the largest in use are empty. |
| Checks.CheckMallocState | scalloc/src/scalloc.c:2259-2399 | Between any two calls no assertion of `do_check_malloc_state` fails. |
| UnlinkProofs.UnlinkChecks | scalloc/src/scalloc.c:1633-1647 | For a binned chunk none of the three corruption checks of `unlink_chunk` can fire. |
| UnlinkProofs.HeaderAlias | scalloc/src/scalloc.c:1649 | The `fd_nextsize` read from a bin header, the next bin's `fd`, is never null, so the test is right for the last chunk of a bin. |
| UnlinkProofs.Twin | scalloc/src/scalloc.c:1649-1665 | If the test finds null the successor has the same size and is not on the ring; otherwise the chunk was the only one of its size. |
| UnlinkProofs.UnlinkStep | scalloc/src/scalloc.c:1630-1667 | Taking any chunk off keeps every bin a ring in order, the sorted bins sorted, and the nextsize ring through just the first chunk of each size. |
| Unlink.UnlinkChunk | scalloc/src/scalloc.c:1630-1667 | The chunk and no other leaves its bin; no tag, no list link and no word of a live block changes. |
| Free.MergeBackward | scalloc/src/scalloc.c:4669-4678 | The free chunk below, if there is one, is unlinked and joined; the footer check cannot fire. |
| Free.FreeCreateChunk | scalloc/src/scalloc.c:4691-4761 | The chunk, joined with an unused successor, is in the bin for its size or has become top, and the size returned is its size. |
| FreeChunk.FreeMergeChunk | scalloc/src/scalloc.c:4645-4683 | The block is gone, all of its bytes are in binned chunks or top, every other block is untouched; no double-free check fires. Below 65536 bytes the merged chunk is the beginning of top or the first chunk of its small bin or of the unsorted list. Whether the fastbins are emptied and the arena is trimmed after, and by how much, is decided by the size the block has when it is joined with its unused neighbours. |
| System.FreeMaybeConsolidate | scalloc/src/scalloc.c:4766-4796 | After 65536 bytes or more were freed all fastbins are empty, and if top then reaches the threshold it is trimmed: by what the system takes of what is offered, or not at all if others moved the break. After a smaller free nothing changes and nothing is asked. |
| FreeChunk.IntFreeChunk | scalloc/src/scalloc.c:4515-4640 | A small block becomes the first entry of its fastbin, nothing else changes and the system is not called; a larger one is merged and put where `_int_free_merge_chunk` puts it, and the arena is trimmed by its merged size; other blocks are untouched. |
| Free.ConsolidateChunk | scalloc/src/scalloc.c:4845-4908 | One round merges one detached chunk with its unused neighbours: what comes of it is the beginning of top or the first unsorted chunk, with their sizes together; the saved next chunk is still a chunk on the chain. |
| Consolidate.MallocConsolidate | scalloc/src/scalloc.c:4808-4911 | It ends with all fastbins empty, every byte they held in an unsorted chunk or top, and every live block and cached block as it was. |
| System.Systrim | scalloc/src/scalloc.c:2911-2972 | What is offered is computed for every size of top, unsigned comparison and all. Nothing moves if that is none or the break is not where the arena ends; otherwise just what the system takes goes, off top and off `system_mem`. The arena grows if and only if top has just MINSIZE, pad is below 2^63, the break is at its end and the system agrees. The result says whether anything moved. |
| System.OfferAbove | scalloc/src/scalloc.c:2921-2931 | With more than MINSIZE in top what is offered is the whole pages of what top has beyond MINSIZE and pad. |
| System.OfferAtLeast | scalloc/src/scalloc.c:2921-2931 | With just MINSIZE the code asks for more than pad if pad is below 2^63, offers a page or more if pad is from 2^63 to 2^64 - 4097, and does nothing above. |
| Trim.Mtrim | scalloc/src/scalloc.c:5148-5197 | Live and cached blocks and all memory above the head of top stay; the arena shrinks or grows as `systrim` decides for what consolidation leaves in top. A recorded state stays one if and only if `system_mem` does not exceed `max_system_mem` then. |
| Tcache.TcachePutN | scalloc/src/scalloc.c:3123-3144 | The block enters its bin at the given cell, in the middle or in front; all other bins are as they were. |
| Tcache.TcacheGetN | scalloc/src/scalloc.c:3148-3168 | The entry at the given cell leaves its bin; the alignment check cannot fire. |
| Tcache.TcachePut | scalloc/src/scalloc.c:3170-3174 | The new sequence of the bin is the block followed by the old sequence. |
| Tcache.TcacheGet | scalloc/src/scalloc.c:3177-3181 | The old sequence of the bin is the block handed out followed by the new sequence. |
| Tcache.TcacheLocationLarge | scalloc/src/scalloc.c:3183-3196 | The cell found separates the entries below the size from those that reach it. |
| Tcache.TcachePutLarge | scalloc/src/scalloc.c:3198-3206 | The block is inserted in front of the first entry that is not smaller, so the bin stays sorted. |
| Tcache.TcacheGetLarge | scalloc/src/scalloc.c:3208-3220 | The smallest entry that fits is taken out, or NULL is returned and there is none. |
| Tcache.TcacheGetAlign | scalloc/src/scalloc.c:3223-3261 | The first entry of just the size at an aligned address, or NULL and there is none. |
| Tcache.CacheRefines | scalloc/src/scalloc.c:302-308 | At any time the decoded links of a bin spell out its sequence and end with null; length and free slots make seven; blocks have the bin's size, or ascend within a factor of two. |
| ListEntries.EntriesDecoded | scalloc/src/scalloc.c:334-336 | Following the masked links from the head of any fastbin or cache bin visits its chunks in order. |
| ListEntries.EntriesInsert | scalloc/src/scalloc.c:3123-3144 | Linking a chunk in inserts it into the sequence of that list and leaves all others alone. |
| ListEntries.EntriesDelete | scalloc/src/scalloc.c:3148-3168 | Unlinking an entry deletes it from the sequence of that list and leaves all others alone. |
| ExactFit.FastPop | scalloc/src/scalloc.c:3947-3955 | The first chunk of the fastbin becomes live; the others stay. |
| ExactFit.MallocFast | scalloc/src/scalloc.c:3942-3997 | The first chunk of the fastbin, or NULL if it is empty and nothing changes. As many of the others as the cache bin has free slots go there, first come first, so that they lie there in reverse; the rest of the fastbin and all other lists stay. The three checks cannot fire. |
| ExactFit.TakeLast | scalloc/src/scalloc.c:4010-4023 | The last chunk of a small bin becomes live; the list check cannot fire, and the chunk below is in use, as `do_check_malloced_chunk` asks. |
| ExactFit.MallocSmall | scalloc/src/scalloc.c:4007-4053 | The last chunk of the small bin, or NULL if it is empty and nothing changes. As many of the others as the cache bin has free slots go there from the end of the bin, so that they lie there in the order of the bin; all other lists stay. |
| LargeBins.BinLargeChunk | scalloc/src/scalloc.c:4194-4251 | The chunk is inserted into the sequence of its bin behind all larger chunks and behind the first of its own size, with the nextsize ring kept; the three largebin checks cannot fire. |
| LargeBins.LargeWalk | scalloc/src/scalloc.c:4220-4226 | The walk along the ring ends at the first chunk of the largest size that is not larger. |
| LargeBins.EndsFacts | scalloc/src/scalloc.c:4199-4208 | The first chunk of a large bin is its largest, the last one its smallest. |
| Split.SplitRemainder | scalloc/src/scalloc.c:4302-4331 | Splitting an unlinked chunk hands out nb bytes of it and makes the rest the first chunk of the unsorted list. |
| Unsorted.UnsortedGuards | scalloc/src/scalloc.c:4105-4114 | The five checks on the last unsorted chunk cannot fire. |
| Unsorted.UnsortedRound | scalloc/src/scalloc.c:4099-4251 | The last unsorted chunk is split exactly if it is the only one, the last remainder, and has more than MINSIZE to spare for a small request. Otherwise it leaves the list: one of just the size goes to the front of its cache bin if that has a free slot and is handed out if not, any other goes to its place in its bin; no other list or bin changes. |
| Unsorted.UnsortedLoop | scalloc/src/scalloc.c:4081-4274 | The list is worked off from its end until it is empty, one more chunk of just the size has come than the cache has room for, 10000 others were binned, the limit on binned chunks is passed with something cached, or only a last remainder that serves is left. That one is split; otherwise the last chunk found of just the size is handed out and those found before it are in the cache, in order. All others looked at are in their bins, put there one after the other, and the rest is untouched. |
| Sorting.WorkedStock | scalloc/src/scalloc.c:4093-4274 | If a pass finds nothing of just the size it looks at all unsorted chunks, or at the last 10000, and after it the sorted bins hold just what they held and those, each of its old size. |
| Search.LargeScan | scalloc/src/scalloc.c:4281-4296 | In the sequence of the request's own large bin: of the smallest chunks that fit the second, or the only one; NULL if none fits. |
| Search.NextBlock | scalloc/src/scalloc.c:4358-4369 | It skips to the next word with a bit set; the bins skipped are empty. |
| Search.NextBit | scalloc/src/scalloc.c:4371-4377 | It finds the next set bit; the bins skipped are empty and the assertion holds. |
| Search.FalseAlarm | scalloc/src/scalloc.c:4382-4388 | Only the bit of the empty bin at hand is cleared, in the copy and in the map. |
| Search.BinmapScan | scalloc/src/scalloc.c:4350-4400 | The last chunk of the lowest non-empty bin above the index, or NULL if all are empty; only bits of empty bins are cleared. |
| Fit.FitFromBins | scalloc/src/scalloc.c:4281-4444 | The block is cut from a smallest of all chunks in sorted bins that fit, NULL exactly if none fits; among equals it is the one that the own bin's scan or, above, the end of the lowest non-empty bin gives. What is left of it is the first unsorted chunk and, for a small request, the last remainder. |
| Fit.TakeFit | scalloc/src/scalloc.c:4397-4443 | The chunk is handed out whole if the rest would be too small for a chunk, otherwise cut to size, the rest at the front of the unsorted list and noted as last remainder if it is to be; either way the chunk below is in use. |
| Top.UseTop | scalloc/src/scalloc.c:4462-4481 | The block is cut from top exactly if top has MINSIZE more than the request; memory behind the mark stays as it is known to be; the chunk below is in use. |
| Malloc.MallocExact | scalloc/src/scalloc.c:3942-4068 | The first of the fastbin of just the size, or else the last of its small bin, with what the cache has room for moved there; if there is neither, nothing has changed for a small request and its small bin is empty, and for a large one all fastbins have been emptied if they may have held anything. |
| Malloc.MallocPass | scalloc/src/scalloc.c:4096-4481 | What working off the unsorted list gives is taken. Otherwise a smallest of the free chunks that fit is cut, which one among equals as `Fit.FitFromBins` says, and top only if none fits. The free chunks are those in their bins and the last 10000 unsorted ones. |
| Malloc.IntMalloc | scalloc/src/scalloc.c:3874-4506 | The block is aligned, new, of at least the padded size and less than MINSIZE more, every live block is untouched; or NULL with nothing live changed. A chunk of just the size in a fastbin or small bin is taken first. Failing that the choice is that of one pass over unsorted list, bins and top, for a large request with all fastbins emptied, for a small one with the heap as it was at the call or, if that serves it in no way and fastbins may hold something, with the fastbins emptied too. The system is asked only when all that fails, and then all fastbins are empty. NULL comes back if and only if the request is too large, or it comes to the system and what that gives is not enough. |
| Malloc.MallocPasses | scalloc/src/scalloc.c:4096-4506 | The outer loop is gone through at most twice, the second time only after a pass that found nothing and with all fastbin chunks merged, and the system is asked only when a pass finds nothing and no fastbin chunks are left. |
| Growth.NewSegmentFits | scalloc/src/scalloc.c:2734-2777 | After both requests for memory the arena ends on a page boundary and top has at least the old and the new bytes together. |
| Growth.WithoutCorrection | scalloc/src/scalloc.c:2779-2817 | Without the second request, the next call's assertion holds of what is read from the head of top exactly if the foreign break was less than eight bytes past a page boundary; the size is legal exactly if it was less than eight past a multiple of 16; top ends where the arena's memory does exactly if it was a multiple of eight. |
| Segments.FindEnd | scalloc/src/scalloc.c:2736-2833 | The new top is aligned, ends on a page boundary at the break, and has the size computed for it, with the second request met or, on a page boundary, refused. |
| Segments.SealOld | scalloc/src/scalloc.c:2844-2871 | Two fenceposts end the old segment; what is left of it is freed and never merges past them. The new top loses what a trim takes, which is decided by what is left and by the new top's size. |
| Segments.NewSegment | scalloc/src/scalloc.c:2734-2873 | The new top has the computed size, less what a trim took; every live and cached block is as it was. |
| Segments.Sysmalloc | scalloc/src/scalloc.c:2498-2900 | The call succeeds if and only if what it gets, as computed beforehand from the sizes and the system's answers, has room for the request and MINSIZE; the size of top afterwards is what is left of that. Live and cached blocks and earlier fenceposts stay; the chunk below the block is in use. |
| Growth.TrimStarves | scalloc/src/scalloc.c:2866-2899 | With both requests met, what is got is too little exactly if a trim of the new top is due and the system takes more than that has to spare, which is less than two pages. |
| Growth.NotStarved | scalloc/src/scalloc.c:2866-2899 | Nothing is trimmed away from a small request, nor when the new space joins the old top. |
| Growth.WithoutSecond | scalloc/src/scalloc.c:2779-2793 | With the second request refused there can be enough only if the old top had less than a page, and there is if there was no old top. |
| Starved.StarvedRun | scalloc/src/scalloc.c:2866-2899 | From the initial state, with a system that refuses nothing, malloc, free and malloc again, and that one returns NULL. |
| Realloc.IntRealloc | scalloc/src/scalloc.c:4917-5033 | The block stays in place exactly if it, with the unused space behind it, has room, and then ends at the padded size or less than MINSIZE beyond, the rest given back, or is allocated right behind itself. Otherwise it moves. NULL exactly if there is no room and the inner request is too large or fails. The first bytes are kept as far as they fit, all other blocks entirely; the checks cannot fire. |
| Realloc.GrowIntoTop | scalloc/src/scalloc.c:4949-4959 | The block is enlarged at the expense of top. |
| Realloc.ReallocMove | scalloc/src/scalloc.c:4975-5005 | One inner request; NULL exactly if that is too large or fails. A new block right behind the old one is joined with it and cut to size; otherwise the contents are copied and the old block goes back to the arena. |
| Realloc.ReallocTail | scalloc/src/scalloc.c:5008-5032 | What is beyond the new size goes to the front of its fastbin, or to the bins or top, exactly if it makes a chunk. |
| Memalign.AlignedFits | scalloc/src/scalloc.c:5079-5112 | In a block padded for the worst case the aligned chunk has room for nb bytes and a leader of at least MINSIZE; the assertion holds. |
| Memalign.GiveLeader | scalloc/src/scalloc.c:5103-5109 | The aligned rest stays live and every byte of the leader is in the bins or top; the cache and all other blocks are as they were. |
| Memalign.GiveTail | scalloc/src/scalloc.c:5115-5138 | The block is cut to nb bytes exactly if the rest makes a chunk or what follows is unused, and every byte cut off is in the bins or top. |
| Memalign.IntMemalign | scalloc/src/scalloc.c:5040-5142 | NULL exactly if the request is too large by itself, or the inner request for the worst case is too large or fails. The block begins at the first aligned spot of the inner block, or the one after it if the space in front makes no chunk; it has at least the padded size and less than MINSIZE more, what else the inner request got is free again, and every live block is untouched. |
| Memalign.RecycledStays | scalloc/src/scalloc.c:5103-5138 | A byte that is in the bins or in top is still there after free memory was merged and moved about, if no block in use is new or has grown and nothing came to the fastbins. |
| Memalign.WrapsExactly | scalloc/src/scalloc.c:5071-5072 | Which calls make the sum of sizes wrap, and that too little would be asked for then. |
| Libc.TcacheInit | scalloc/src/scalloc.c:3326-3341 | The cache is a new block of the arena, from one request of 760 bytes, cleared, and every bin has seven free slots and is empty; or that request fails, and exactly then there is no cache and there are no slots. Nothing live changes. |
| Libc.FromCache | scalloc/src/scalloc.c:3411-3429 | The smallest cached block of the bin that fits, below twice the request, and of equals the first; NULL exactly if none fits. It leaves its bin, one slot is free again, and nothing else changes. |
| Libc.LibcMalloc | scalloc/src/scalloc.c:3405-3432 | What malloc does, in all cases: above PTRDIFF_MAX nothing; below the limit of the cache the smallest block of its bin that fits, if there is one, and without a cache one is set up first; otherwise one request to the arena. A new aligned block that overlaps no other, or NULL and nothing the client holds changes. |
| DoubleFree.DoubleFreeVerify | scalloc/src/scalloc.c:3265-3290 | It reports a double free exactly if the block is in the cache. For one in use none of the three checks fires, whatever the client left in the word of the key. |
| Libc.LibcFree | scalloc/src/scalloc.c:3436-3489 | What free does, in all cases: below the limit of the cache the block enters its bin, in front or in order of size, exactly if there is a free slot, and nothing else changes; otherwise the arena takes it. Every other block is untouched, even if the second word of the block holds the cache's key. No check fires for a block in use, and a block that is in the cache with its key intact is found to have been freed before, with nothing changed. |
| Zeroing.LibcCalloc2 | scalloc/src/scalloc.c:3726-3818 | A block that does not begin where top did is all zero. Of one that does, the words up to what is taken to have been written are zero and the rest is as it was in memory; in a recorded state that is zero too. |
| Zeroing.ClearedExact | scalloc/src/scalloc.c:3802-3814 | Clearing just the beginning makes the block zero if and only if the rest was zero. |
| Zeroing.LibcCalloc | scalloc/src/scalloc.c:3820-3867 | NULL if the product overflows; otherwise served from the cache, after setting it up, or from the arena, just as malloc serves the same size. A new block, all zero in a recorded state, and from the cache in any; NULL as for malloc. Recorded states stay so. |
| Libc.LibcRealloc | scalloc/src/scalloc.c:3492-3614 | NULL allocates and size 0 frees, as malloc and free do. A block that fits snugly is returned as it is, one with room stays in place, any other moves as `_int_realloc` says. NULL exactly if the request is too large, or there is no room and the inner request is too large or fails; then nothing changes. The contents are kept as far as they fit. |
| Aligned.CachedAligned | scalloc/src/scalloc.c:3223-3261 | The first cached block of just the size at an aligned address, NULL exactly if there is none in the bin for the size; without a cache one is set up and NULL is returned. |
| Aligned.MidMemalign | scalloc/src/scalloc.c:3640-3701 | Up to 16 what malloc does; NULL for alignments above 2^63 and requests above PTRDIFF_MAX. Otherwise the aligned block the cache holds of just the size, if there is one, and else what `_int_memalign` gives, with the cache set up first if there is none. The address is divisible by the alignment, if that is a power of two. |
| Aligned.RoundToPower | scalloc/src/scalloc.c:3662-3669 | The alignment is rounded up to the next power of two. |
| Mallinfo.IntMallinfo | scalloc/src/scalloc.c:5250-5303 | The free bytes counted over top, fastbins and bins are those a walk over the heap finds, and the chunk counts agree. |
| Runs.Client.DoMalloc | scalloc/src/scalloc.c:3405-3432 | A client's malloc: the arena does what malloc does, and the client has one more block, for the request, that overlaps none of those held, whose expected contents are what they were; or it gets NULL and nothing changes for it. |
| Runs.Client.DoCalloc | scalloc/src/scalloc.c:3820-3867 | Moreover the new block reads as zeros in a recorded state. |
| Runs.Client.DoMemalign | scalloc/src/scalloc.c:3640-3701 | Moreover the pointer is aligned. |
| Runs.Client.DoFree | scalloc/src/scalloc.c:3436-3489 | The cache or the arena takes the block, and the contents of all other blocks stay. |
| Runs.Client.DoRealloc | scalloc/src/scalloc.c:3492-3614 | The arena does what realloc does; the contents stay as far as they fit, and those of all other blocks entirely; with NULL nothing changes for the client, and with size 0 the block is gone. |
| Runs.Client.DoWrite | scalloc/src/scalloc.c:1230-1233 | A store to any usable word, the one shared with the next chunk's header included, disturbs nothing. |
| Runs.Client.DoRead | scalloc/src/scalloc.c:1230-1233 | A load yields what the client stored last, whatever the allocator did in between. |
| Runs.Client.DoTrim | scalloc/src/scalloc.c:5148-5200 | Consolidating and trimming changes nothing the client holds, even if the arena grows; it leaves a recorded state only if the arena grows beyond `max_system_mem`. |
| Runs.Run | scalloc/src/scalloc.c:1961-1985 | For any script of operations, any sequence of answers of the system (with the proviso on the second request) and any configuration of the cache: every operation takes the arena and the client from one view to the next as malloc, calloc, memalign, realloc, free and malloc_trim are to do by their contracts, memory agrees with every view, no two blocks overlap, the heap is sound in the end, and no check fires on the way. |
| Runs.RunKeepsBlock | scalloc/src/scalloc.c:1230-1233 | Over any stretch of a run in which no operation writes to, resizes or frees a block, it stays where it is and every usable word of it reads the same in memory. |
| Runs.StoredStays | scalloc/src/scalloc.c:1230-1233 | A word stored reads back until the client writes to the block again, resizes it or frees it. |
| Runs.CallocsZero | scalloc/src/scalloc.c:3802-3818 | In a run in which no trim makes the arena grow every block that calloc hands out is zero. |
| Runs.FreedComesBack | scalloc/src/scalloc.c:3405-3480 | In any run, if a small block is freed while its bin of the cache has a free slot and the next operation is a malloc for a request of just its size, that returns the same pointer. |
| Regrown.GrowingTrim | scalloc/src/scalloc.c:2919-2964 | From the initial state malloc(4056) and malloc_trim(0), which returns 1 and makes the arena grow by a page that is not recorded. |
| Regrown.CallocRun | scalloc/src/scalloc.c:3745-3814 | After that malloc(4088), a store, two frees and malloc_trim(0) again, calloc(1, 8000) hands out a block that is not all zero. |
| Resize.WriteSound | scalloc/src/scalloc.c:1230-1233 | Any change to the usable words of a live block keeps the invariant and all other blocks. |
| Mmap.MmapState.SysmallocMmap | scalloc/src/scalloc.c:2414-2451 | NULL exactly if the system refuses, and then nothing changes. Otherwise the mapping is whole pages with room for the chunk, and the counters and their maxima count it. |
| Mmap.MmapState.ShiftHeader | scalloc/src/scalloc.c:5095-5101 | Moving the header to the aligned address keeps the mapping and the header's account of it. |
| Mmap.MmapState.MunmapChunk | scalloc/src/scalloc.c:2975-3000 | Just what was mapped for the chunk is unmapped, also after its header was moved; the pointer test does not fire; the counters stay right and their maxima what they were. |
| Mmap.AlignedOffset | scalloc/src/scalloc.c:2990-2991 | The test for a power of two accepts the offset of every aligned chunk in a fresh mapping. |
| HashGenerator.StepBijective | sgoto/third-party/ephemeral-hash-cas/src/core/include/core.h:38-41 | The step is a bijection on 64-bit words and zero is its only way to zero. |
| HashGenerator.OutputUndone | sgoto/third-party/ephemeral-hash-cas/src/core/include/core.h:42 | The tag of a state is the top 16 bits of its product with the constant: a word times the inverse of the constant modulo 2^64 has the top 16 bits of the word as its tag. |
| HashGenerator.RunSequential | sgoto/third-party/ephemeral-hash-cas/src/core/include/core.h:30-46 | For any number of threads in any interleaving, n draws yield the first n outputs of the sequential generator, once each, and its n-th state. |
| HashGenerator.RunNonzero | sgoto/third-party/ephemeral-hash-cas/src/core/include/core.h:30-46 | From a non-zero seed the state never becomes zero. |
| HashGenerator.TagsRepeat | sgoto/third-party/ephemeral-hash-cas/src/core/include/core.h:30-46 | Whatever the seed and the interleaving, two of any 65537 tags drawn are equal. |
| HashGenerator.SpacedRepeat | sgoto/third-party/ephemeral-hash-cas/src/core/include/core.h:30-46 | For every seed two equal tags are drawn with at least three draws in between. |
| EHashPtr.PackRoundTrip | sgoto/third-party/ephemeral-hash-cas/src/core/include/core.h:66-74 | Packing and unpacking are inverse to each other, both ways. |
| EHashPtr.RawEquality | sgoto/third-party/ephemeral-hash-cas/src/core/include/core.h:61-81 | The comparison of raw words is `ehash_full_equal`. |
| EHashPtr.SwapCompares | sgoto/third-party/ephemeral-hash-cas/src/core/include/core.h:76-81 | Raw words are equal exactly if the pairs of the stack's transition system are. |
| EHashStack.PushAlways | sgoto/third-party/ephemeral-hash-cas/src/core/include/core.h:108-118 | In any run from the empty stack, whatever the tags and however earlier pops went, a push whose swap succeeds turns the list L into the node followed by L. |
| EHashStack.PopExact | sgoto/third-party/ephemeral-hash-cas/src/core/include/core.h:120-136 | A successful pop takes off just the first node if and only if the next pointer it read is still the right one. |
| EHashStack.RunExact | sgoto/third-party/ephemeral-hash-cas/src/core/core.c:38-69 | In a run from the empty stack, with any tags, memory holds the stack at every point if and only if every pop that succeeds swaps while the next pointer it read is still the head's. |
| EHashStack.StepKeeps | sgoto/third-party/ephemeral-hash-cas/src/core/core.c:38-69 | Every step of every thread keeps the list, its acyclicity and the balance of pushed and popped nodes, if pops that swap are sheltered. |
| EHashStack.RunKeeps | sgoto/third-party/ephemeral-hash-cas/src/core/core.c:38-69 | The same for whole runs: nodes pushed are nodes popped and nodes in the stack. |
| EHashStack.EitherSuffices | sgoto/third-party/ephemeral-hash-cas/src/core/core.c:50-69 | From the empty stack it is enough that no pair loaded by a pop under way is installed again, or that no node is pushed twice. |
| EHashRepeat.EverySeedLoses | sgoto/third-party/ephemeral-hash-cas/src/core/core.c:31-69 | For every seed there is a run whose tags are those its generator draws, in order, after which the stack should be empty but the head names a node. |
| Smemset.Byte | smemset/src/smemset.c:148-152 | The fill byte differs from the argument by a multiple of 256, negative arguments included. |
| Smemset.SpreadBytes | smemset/src/smemset.c:148-152 | Every byte of the word built by shifting is the fill byte. |
| Smemset.Smemset | smemset/src/smemset.c:127-201 | Exactly the bytes in the range become the fill byte, for every start and length within the limit, with all word stores aligned; an invalid call changes nothing. |
| Smemset.SmemsetEx | smemset/src/smemset.c:203-210 | The same within the limit of the context. |

## Left out

- Non-main arenas, arena locks and the atomic variants of the fastbin operations: one thread and the branches for it.
- Memory tagging, perturb bytes, huge pages, `madvise`, probes: switched off in the configuration modelled.
- `sysmalloc` does not map large requests directly and does not fall back on mmap when MORECORE fails; mapped chunks are modelled by themselves in Mmap, without the dynamic threshold.
- `mremap_chunk`: off by default.
- Tunables: only `tcache_max_bytes`, `tcache_small_bins`, `tcache_unsorted_limit` and the random cache key are parameters, in any combination, those that `do_set_tcache_max` cannot set among them. The others have their defaults.
- The cells and slot counts of the thread cache are kept apart from the block that `tcache_init` allocates for them; that block stays live like any other.
- `tcache_thread_shutdown`, `valloc`, `pvalloc`, `aligned_alloc`, `malloc_stats`, `malloc_info`: they only combine or print what is modelled.
- Addresses and sizes are unbounded, so the checks against wrapping around the address space (`free(): invalid size`, `realloc(): invalid pointer`) have no counterpart.
- `last_remainder` is kept in the head word of the unsorted bin's header, and stored after the other stores of a split; some other stores that do not depend on each other are made in another order or at once.
- Segments.MorecoreAgain: the second request for memory may be refused only with the break on a page boundary, and nothing moves the break between the two requests; Growth.WithoutCorrection says what becomes of top otherwise. New memory reads as zeros (MORECORE_CLEARS is 1).
- Segments.FindEnd: carries that restriction, and so do Segments.NewSegment, Segments.Sysmalloc and all that calls it, up to Runs.Run. Segments.Sysmalloc moreover does not map large requests directly.
- Memalign.IntMemalign: leaves out the calls for which the sum of the padded size, the alignment and MINSIZE wraps, which the source does not check; so do Aligned.MidMemalign and Runs.Client.DoMemalign. Memalign.WrapsExactly says which they are.
- System.Systrim: leaves out the pads from 2^63 to 2^64 - 4097 with just MINSIZE in top, and Trim.Mtrim and Runs.Client.DoTrim those pads altogether; System.OfferAtLeast says what the code does then.
- Runs.Client.DoTrim: does not give back whole pages inside free chunks, which `mtrim` does with `madvise`.
- ExactFit.MallocSmall: that the chunk below is in use is stated where the chunk is taken, in ExactFit.TakeLast, not again after stashing; blocks from fastbins and the cache need not have that property.
- Consolidate.MallocConsolidate: does not say in which order the merged chunks come to the unsorted list.
- Mallinfo.IntMallinfo: the fields about mapped chunks are not filled in.
- EHashStack.StepKeeps: reading the next word of a node that its owner has given back to the system is not modelled as a fault; the word keeps its last value. Steps follow core.c, where the next word is read before the tag is drawn.
- Smemset.Smemset: fences and volatile have no counterpart; words are little-endian; the generic limit is the 1048576 bytes of smemset.h.
- `sgoto.c`, `srecv.c`, `snprintf.c` and the remaining limit tables: platform-bound, or easy.
