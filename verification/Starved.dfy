/** A run in which malloc fails although the system meets every request. */
module Starved {
  import opened Sizes
  import opened Memory
  import opened Arena
  import opened Consolidate
  import opened System
  import opened Free
  import opened FreeChunk
  import opened Growth
  import opened Segments
  import opened Realloc
  import opened Malloc
  import opened Libc
  import opened PlainHeaps

  /** A system that refuses nothing and takes back all it is offered; before the third question others
      move the break by a page. */
  function Greedy(k: nat): Answer {
    Answer(if k == 2 then PAGE else 0, false, 64, ZEROS)
  }

  /** The first allocation leaves 32 bytes of top. */
  method First(key: CacheKey, start: int) returns (av: MallocState, mem: int)
    requires start >= HEAP_MIN && start % PAGE == 0
    ensures fresh(av) && av.Settled() && av.answers == Greedy && av.calls == 2 && av.tcacheMaxBytes == 1041
    ensures mem != NULL && mem - 16 == av.base && av.top == av.base + 69600 && av.sbrkBase + av.systemMem == av.base + 69632
    ensures mem - 16 in LiveOf(av.H) && LiveOf(av.H)[mem - 16] == 69600 && av.sbrkBase != NULL
  {
    hide Sound, Quiet, Kept, Growing, Handed, LiveOf, Undisturbed, Mem.Size, Mallocs, Answered, FastEmpty;
    av := new MallocState(key, 0, 64, 1041, start, Greedy);
    ghost var s0, a0 := av.S(), Snap(av);
    EntryFacts(s0);
    FirstGrowth(start, Hdr(UNSORTED));
    ghost var c;
    mem, c := LibcMalloc(av, 69592);
    MallocsLarge(ConfigOf(av), a0, Snap(av), 69592, mem, c);
    AnsweredAt(ConfigOf(av), c.r, 69600);
    NoChunks(c.r.scene.s);
    HandedFacts(s0, av.S(), mem - 16, 69600);
    LastBlock(av.S(), mem - 16, 69600);
    EntryFacts(av.S());
  }

  /** Freeing the block makes top 69632 bytes again. */
  method GiveBack(av: MallocState, mem: int)
    requires av.Settled() && mem != NULL && mem - 16 == av.base && mem - 16 in LiveOf(av.H) && LiveOf(av.H)[mem - 16] == 69600
    requires av.top == av.base + 69600 && av.sbrkBase + av.systemMem == av.base + 69632 && av.sbrkBase != NULL && av.tcacheMaxBytes == 1041
    modifies av
    ensures av.Settled() && av.calls == old(av.calls) && av.top == av.base && av.m.Size(av.top) == 69632 && av.sbrkBase == old(av.sbrkBase)
  {
    hide Sound, Quiet, Kept, LiveOf, Freed, Frees, TrimOffer, MergedSize, Mem.Size, FastEmpty, Lands, Recycled;
    ghost var base, systemMem, a0 := av.base, av.systemMem, Snap(av);
    ReallocGuards(av.S(), mem - 16);
    var verdict := LibcFree(av, mem);
    FreesLarge(ConfigOf(av), a0, Snap(av), mem - 16);
    Rejoined(av.S(), base, systemMem);
  }

  /** The second allocation is promised at least 131088 bytes, at the trim threshold and more, and loses
      them to a trim. */
  method StarvedRun(key: CacheKey, start: int) returns (av: MallocState, mem: int, mem2: int)
    requires start >= HEAP_MIN && start % PAGE == 0
    ensures av.Settled() && av.answers == Greedy && mem != NULL && mem2 == NULL
  {
    hide Sound, Quiet, Kept, Growing, Handed, LiveOf, Undisturbed, Mem.Size, Mallocs, Answered, FastEmpty;
    av, mem := First(key, start);
    GiveBack(av, mem);
    ghost var s0, a0 := av.S(), Snap(av);
    EntryFacts(s0);
    SecondGrowth(av.brk, av.top + 69632);
    ghost var c;
    mem2, c := LibcMalloc(av, 131048);
    MallocsLarge(ConfigOf(av), a0, Snap(av), 131048, mem2, c);
    AnsweredAt(ConfigOf(av), c.r, 131056);
    BaseBelow(c.r.scene.s);
    NoChunks(c.r.scene.s);
    SameTop(s0, c.r.scene.s);
  }

  lemma FirstGrowth(brk: int, oldEnd: int)
    requires brk % PAGE == 0 && brk != oldEnd
    ensures var g := Growing(Greedy, 0, brk, oldEnd, 0, 69600); g.Grown? && g.topSize - g.released == 69632
    ensures FrontSkip(brk) == 0
  {
    assert FrontSkip(brk) == 0 && Correction(brk, 69632, 0) == 0 by {
      PageMultiple(brk, 0);
      SixteenSum(brk, 16);
      PageSum(brk, 69632);
      AlignedUp(brk + 69632);
    }
  }

  /** After the block was freed top begins where the block did, and is too small to be trimmed. */
  lemma Rejoined(s: State, p: int, systemMem: int)
    requires Sound(s) && s.base == p && s.top <= p && s.sbrkBase != NULL && s.systemMem <= systemMem
    requires s.sbrkBase + systemMem == p + 69632
    ensures s.top == p && s.m.Size(p) + (systemMem - s.systemMem) == 69632
    ensures forall size :: TrimOffer(size, 69632) == 0
  {
    EntryFacts(s);
    TopSizeFacts(s);
  }

  lemma SecondGrowth(brk: int, oldEnd: int)
    requires brk >= oldEnd
    ensures !Enough(Growing(Greedy, 2, brk, oldEnd, 69632, 131056), 131056)
  {
    TrimStarves(Greedy, 2, brk, oldEnd, 69632, 131056);
  }
}
