/** A run in which trimming makes the arena grow, and calloc hands out memory that is not all zero. */
module Regrown {
  import opened Sizes
  import opened Memory
  import opened Heap
  import opened Arena
  import opened Consolidate
  import opened System
  import opened Growth
  import opened Segments
  import opened Resize
  import opened Malloc
  import opened Libc
  import opened Zeroing
  import opened Trim
  import opened PlainHeaps

  /** A system that refuses nothing and takes back all it is offered, with nobody else moving the break. */
  function Plain(k: nat): Answer {
    Answer(0, false, 64, ZEROS)
  }

  /** The arena begins on a page boundary and the break is where it ends; 4096 bytes are recorded. */
  ghost predicate Laid(av: MallocState, top: int, systemMem: int)
    reads av
  {
    && av.Settled() && av.answers == Plain && av.tcacheMaxBytes == 1041 && av.sbrkBase == av.base >= HEAP_MIN && av.base % PAGE == 0
    && av.top == av.base + top && av.systemMem == systemMem && av.maxSystemMem == 4096 && av.brk == av.base + systemMem
  }

  lemma LaidTop(av: MallocState, top: int, systemMem: int)
    requires Laid(av, top, systemMem)
    ensures av.m.Size(av.top) == systemMem - top && av.top != Hdr(UNSORTED)
  {
    EntryFacts(av.S());
  }

  /** malloc(4056) leaves MINSIZE bytes of top. */
  method First(key: CacheKey, start: int) returns (av: MallocState, mem: int)
    requires start >= HEAP_MIN && start % PAGE == 0
    ensures fresh(av) && Laid(av, 4064, 4096) && av.Recorded() && mem == av.base + 16 && av.H == map[av.base := Chunk(4064, Live)]
  {
    hide Sound, Quiet, Kept, Growing, Handed, LiveOf, Undisturbed, Mem.Size, Mallocs, Answered, FastEmpty;
    av := new MallocState(key, 0, 64, 1041, start, Plain);
    ghost var s0, a0 := av.S(), Snap(av);
    EntryFacts(s0);
    FirstGrowth(start, Hdr(UNSORTED));
    ghost var c;
    mem, c := LibcMalloc(av, 4056);
    MallocsLarge(ConfigOf(av), a0, Snap(av), 4056, mem, c);
    AnsweredAt(ConfigOf(av), c.r, 4064);
    NoChunks(c.r.scene.s);
    HandedFacts(s0, av.S(), mem - 16, 4064);
    LastBlock(av.S(), mem - 16, 4064);
    OnlyBlock(av.S(), mem - 16, 4064);
    EntryFacts(av.S());
  }

  lemma FirstGrowth(brk: int, oldEnd: int)
    requires brk % PAGE == 0 && brk != oldEnd
    ensures var g := Growing(Plain, 0, brk, oldEnd, 0, 4064); g.Grown? && g.topSize - g.released == 4096
    ensures FrontSkip(brk) == 0
  {
    assert FrontSkip(brk) == 0 && Correction(brk, 4096, 0) == 0 by {
      PageMultiple(brk, 0);
      SixteenSum(brk, 16);
      PageSum(brk, 4096);
      AlignUpFacts(brk + 4096);
      AlignedUp(brk + 4096);
    }
  }

  /** malloc_trim(0) then asks for a page, and gets it unrecorded. */
  method GrowingTrim(key: CacheKey, start: int) returns (av: MallocState, mem: int, r: bool)
    requires start >= HEAP_MIN && start % PAGE == 0
    ensures fresh(av) && Laid(av, 4064, 8192) && !av.Recorded() && mem == av.base + 16 && av.H == map[av.base := Chunk(4064, Live)] && r
  {
    hide Sound, Quiet, Kept, LiveOf, Mem.Size, Offer;
    av, mem := First(key, start);
    LaidTop(av, 4064, 4096);
    LiveSingle(av.H, av.base, 4064);
    ghost var topSize;
    r, topSize := Mtrim(av, 0);
    OnlyBlock(av.S(), av.base, 4064);
    EntryFacts(av.S());
    OnePage(av.base, av.systemMem);
  }

  lemma LiveSingle(H: Heap, p: int, n: int)
    requires H == map[p := Chunk(n, Live)]
    ensures LiveOf(H) == map[p := n]
  {}

  lemma OnePage(start: int, systemMem: int)
    requires start % PAGE == 0 && (start + systemMem) % PAGE == 0 && 4096 < systemMem <= 8192
    ensures systemMem == 8192
  {
    PageSum(start + systemMem, start);
    var k := systemMem / PAGE;
    assert systemMem == PAGE * k;
  }

  // ---------------------------------------------------------------- memory that was written

  lemma LiveDouble(H: Heap, p: int, n: int, q: int, k: int)
    requires H == map[p := Chunk(n, Live), q := Chunk(k, Live)]
    ensures LiveOf(H) == map[p := n, q := k]
  {}

  /** malloc(4088) is served from the new page, and the client writes 1 to a word of the block. */
  method Dirty(av: MallocState) returns (mem: int)
    requires Laid(av, 4064, 8192) && av.H == map[av.base := Chunk(4064, Live)]
    modifies av
    ensures Laid(av, 8160, 8192) && mem == av.base + 4080 && av.base == old(av.base)
    ensures av.H == map[av.base := Chunk(4064, Live), av.base + 4064 := Chunk(4096, Live)] && av.m.o(av.base + 4160) == 1
  {
    hide Sound, Quiet, Kept, LiveOf, Mem.Size, Handed, Undisturbed, Growing, Mallocs, Answered, FastEmpty;
    LaidTop(av, 4064, 8192);
    LiveSingle(av.H, av.base, 4064);
    ghost var s0, base, a0 := av.S(), av.base, Snap(av);
    ghost var c;
    mem, c := LibcMalloc(av, 4088);
    MallocsLarge(ConfigOf(av), a0, Snap(av), 4088, mem, c);
    AnsweredAt(ConfigOf(av), c.r, 4096);
    OnlyBlock(c.r.scene.s, base, 4064);
    SameTop(s0, c.r.scene.s);
    assert !c.r.origin.Nowhere?;
    HandedFacts(s0, av.S(), mem - 16, 4096);
    HeldStill(s0, av.S(), base);
    TwoBlocks(av.S(), base, 4064, mem - 16, 4096);
    ghost var s1 := av.S();
    var a := mem + 80;
    LiveDouble(av.H, base, 4064, base + 4064, 4096);
    WriteSound(s1, Mem(av.m.e, Put(av.m.o, a, 1)), mem - 16);
    av.m := Mem(av.m.e, Put(av.m.o, a, 1));
  }

  lemma HeldStill(s: State, s1: State, p: int)
    requires Undisturbed(s, s1) && p in LiveOf(s.H)
    ensures p in LiveOf(s1.H) && LiveOf(s1.H)[p] == LiveOf(s.H)[p]
  {}

  /** Freeing the second block and then the first makes all of it top; the word is still there. */
  method GiveBack(av: MallocState, mem1: int, mem2: int)
    requires Laid(av, 8160, 8192) && mem1 == av.base + 16 && mem2 == av.base + 4080 && av.m.o(av.base + 4160) == 1
    requires av.H == map[av.base := Chunk(4064, Live), av.base + 4064 := Chunk(4096, Live)]
    modifies av
    ensures Laid(av, 0, 8192) && av.m.o(av.base + 4160) == 1 && av.base == old(av.base)
  {
    hide Sound, Quiet, Kept, LiveOf, Mem.Size, Freed, Frees, TrimOffer, FastEmpty, Recycled;
    ghost var s0, base, a0 := av.S(), av.base, Snap(av);
    LaidTop(av, 8160, 8192);
    LiveDouble(av.H, base, 4064, base + 4064, 4096);
    TwoBlocks(av.S(), base, 4064, base + 4064, 4096);
    SmallFree(4128);
    var verdict := LibcFree(av, mem2);
    FreesLarge(ConfigOf(av), a0, Snap(av), base + 4064);
    FreedFirst(s0, av.S(), base, 4064, base + 4064, 4096);
    LaidTop(av, 4064, 8192);
    LiveSingle(av.H, base, 4064);
    SmallFree(8192);
    ghost var a1 := Snap(av);
    verdict := LibcFree(av, mem1);
    FreesLarge(ConfigOf(av), a1, Snap(av), base);
    BaseBelow(av.S());
  }

  lemma OneLeft(p: int, n: int, q: int, k: int)
    requires p != q
    ensures map[p := n, q := k] - {q} == map[p := n]
  {}

  lemma SmallFree(size: int)
    ensures size < 65536 ==> forall topSize :: TrimOffer(size, topSize) == 0
  {}

  lemma FreedFirst(s0: State, s: State, p: int, n: int, q: int, k: int)
    requires LiveOf(s0.H) == map[p := n, q := k] && p != q && Freed(s0, s, q)
    requires Sound(s) && Quiet(s.H) && p == s.base && s.top <= p + n
    ensures s.H == map[p := Chunk(n, Live)] && s.top == p + n && s.m.PrevInuse(p)
  {
    OneLeft(p, n, q, k);
    OnlyBlock(s, p, n);
  }

  // ---------------------------------------------------------------- calloc

  /** malloc_trim(0) now gives back all but a page. */
  method SecondTrim(av: MallocState)
    requires Laid(av, 0, 8192) && av.m.o(av.base + 4160) == 1
    modifies av
    ensures Laid(av, 0, 4096) && av.m.o(av.base + 4160) == 1 && av.base == old(av.base)
  {
    hide Sound, Quiet, Kept, LiveOf, Mem.Size, Trimmed;
    LaidTop(av, 0, 8192);
    ghost var b0 := BooksOf(av);
    ghost var topSize;
    var r;
    r, topSize := Mtrim(av, 0);
    BaseBelow(av.S());
    PageBack(b0, BooksOf(av), r, topSize);
  }

  lemma PageBack(b0: Books, b1: Books, r: bool, topSize: int)
    requires Trimmed(Plain, b0, b1, 0, r, topSize) && b0.topSize == 8192 && b0.systemMem == 8192 && b0.brk == b0.sbrkBase + 8192
    requires b0.sbrkBase == b0.base == b0.top && b1.base <= b1.top
    ensures b1.top == b0.top && b1.systemMem == 4096 && b1.brk == b1.base + 4096
  {
    hide Offer, Yielded;
    OfferIs(b0.calls + 1);
  }

  lemma OfferIs(k: nat)
    ensures Offer(8192, 0) == 4096 && Yielded(Plain(k), 4096) == 4096
  {}

  /** calloc(1, 8000) gets a page again. It takes only 4096 bytes to have been written, and the word stays 1. */
  method Calloc(av: MallocState) returns (mem: int)
    requires Laid(av, 0, 4096) && av.m.o(av.base + 4160) == 1
    modifies av
    ensures av.Settled() && mem != NULL && mem - 16 in LiveOf(av.H) && LiveOf(av.H)[mem - 16] >= 8016
    ensures !Zeroed(av.m, mem - 16, LiveOf(av.H)[mem - 16])
  {
    hide Sound, Quiet, Kept, LiveOf, Mem.Size, Handed, Undisturbed, Growing, Enough, Callocs, Answered, FastEmpty;
    LaidTop(av, 0, 4096);
    ghost var s0, a, a0 := av.S(), av.base + 4160, Snap(av);
    PlainGrows(av.calls, av.brk);
    ghost var c;
    mem, c := LibcCalloc(av, 1, 8000);
    CallocsLarge(ConfigOf(av), a0, Snap(av), 8000, mem, c);
    AnsweredAt(ConfigOf(av), c.r, 8016);
    BaseBelow(c.r.scene.s);
    NoChunks(c.r.scene.s);
    SameTop(s0, c.r.scene.s);
    HandedFacts(s0, av.S(), mem - 16, 8016);
    assert av.m.o(a) == 1;
  }

  lemma PlainGrows(calls: nat, brk: int)
    ensures Enough(Growing(Plain, calls, brk, brk, 4096, 8016), 8016)
  {
    NotStarved(Plain, calls, brk, brk, 4096, 8016);
  }

  /** All of it together: no call fails, and calloc does not zero its block. */
  method CallocRun(key: CacheKey, start: int) returns (av: MallocState, mem: int)
    requires start >= HEAP_MIN && start % PAGE == 0
    ensures av.Settled() && av.answers == Plain && mem != NULL && mem - 16 in LiveOf(av.H) && LiveOf(av.H)[mem - 16] >= 8016
    ensures !Zeroed(av.m, mem - 16, LiveOf(av.H)[mem - 16])
  {
    hide Sound, Quiet, Kept, LiveOf, Mem.Size, Zeroed;
    var mem1, mem2, r;
    av, mem1, r := GrowingTrim(key, start);
    mem2 := Dirty(av);
    GiveBack(av, mem1, mem2);
    SecondTrim(av);
    mem := Calloc(av);
  }
}
