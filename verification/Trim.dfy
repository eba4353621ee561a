/** `malloc_trim`: consolidate, then give back the end of top, or get more of it. */
module Trim {
  import opened Sizes
  import opened Memory
  import opened Heap
  import opened Arena
  import opened Consolidate
  import opened System
  import opened Segments

  /** Where things stand after consolidation left top with `topSize` bytes and `systrim` was called. */
  ghost predicate Trimmed(answers: nat -> Answer, b0: Books, b1: Books, pad: int, r: bool, topSize: int) {
    var released, end := b0.systemMem - b1.systemMem, b0.sbrkBase + b0.systemMem;
    && b1 == b0.(top := b1.top, topSize := topSize - released, systemMem := b1.systemMem, calls := b1.calls, brk := b1.brk)
    && b1.top <= b0.top && topSize >= b0.topSize && (b1.top == b0.top ==> topSize == b0.topSize)
    && TrimDone(answers, b0.calls, b0.brk, end, Offer(topSize, pad), b1.calls, b1.brk, released) && (r <==> released != 0)
    && (released < 0 <==>
          topSize == MINSIZE && pad < WORD / 2 && b0.brk + answers(b0.calls).moved == end && !answers(b0.calls + 1).refused)
    && (released < 0 ==> pad < -released <= pad + PAGE)
  }

  /** The stores of `mtrim`. */
  method ConsolidateAndTrim(av: MallocState, pad: int) returns (r: bool, ghost topSize: int)
    requires av.Valid() && 0 <= pad < WORD && !Overdrawing(pad)
    modifies av`m, av`H, av`top, av`haveFastchunks, av`brk, av`calls, av`systemMem
    ensures av.Valid() && FastEmpty(av.H, NFASTBINS) && SameCached(old(av.H), av.H)
    ensures LiveOf(av.H) == old(LiveOf(av.H)) && Kept(old(av.m), av.m, LiveOf(av.H)) && Trimmed(av.answers, old(BooksOf(av)), BooksOf(av), pad, r, topSize)
  {
    hide Sound, Kept, LiveOf, Quiet, FastEmpty, SameCached, TrimDone, Offer, Overdrawing, Mem.Size;
    ghost var s0 := av.S();
    MallocConsolidate(av);
    ghost var s1 := av.S();
    TopSizes(s0);
    TopSizes(s1);
    topSize := av.m.Size(av.top);
    r := Systrim(av, pad);
    KeptTrans(s0.m, s1.m, av.m, LiveOf(s0.H));
  }

  /** `mtrim` for the main arena, without returning pages in the middle of the heap. If consolidation leaves
      just MINSIZE in top, the arena grows by more than `pad` bytes, provided the break is where the arena
      ends and the system agrees. The growth is not recorded: if it exceeds `max_system_mem`, and only
      then, memory behind that is no longer known to be unwritten. */
  method Mtrim(av: MallocState, pad: int) returns (r: bool, ghost topSize: int)
    requires av.Settled() && 0 <= pad < WORD && !Overdrawing(pad)
    modifies av`m, av`H, av`top, av`haveFastchunks, av`brk, av`calls, av`systemMem, av`mark
    ensures av.Settled() && FastEmpty(av.H, NFASTBINS) && SameCached(old(av.H), av.H)
    ensures LiveOf(av.H) == old(LiveOf(av.H)) && Kept(old(av.m), av.m, LiveOf(av.H)) && Trimmed(av.answers, old(BooksOf(av)), BooksOf(av), pad, r, topSize)
    ensures AboveSame(old(av.m), av.m, old(av.top))
    ensures old(av.Recorded()) ==> (av.Recorded() <==> av.systemMem <= av.maxSystemMem)
  {
    hide Sound, Kept, LiveOf, Quiet, FastEmpty, SameCached, Overdrawing, Mem.Size, AboveSame, Trimmed;
    ghost var b0 := BooksOf(av);
    ghost var s0 := av.S();
    TopSizes(s0);
    av.mark := Beyond(av.top + 1, av.m);
    MarkMoved(s0, av.mark);
    r, topSize := ConsolidateAndTrim(av, pad);
    TopSizes(av.S());
    TrimmedDown(av.answers, b0, BooksOf(av), pad, r, topSize);
    MarkBack(s0, av.S());
    av.mark := s0.mark;
    MarkRaised(av.S(), av.sbrkBase + av.systemMem);
    av.mark := Raised(av.mark, av.sbrkBase + av.systemMem);
  }

  /** While nothing is taken from top, all memory above its head can be known. */
  lemma MarkMoved(s: State, mark: Beyond)
    requires Sound(s) && mark == Beyond(s.top + 1, s.m)
    ensures Sound(s.(mark := mark))
  {}

  lemma MarkBack(s0: State, s: State)
    requires Sound(s0) && Sound(s) && s.mark == Beyond(s0.top + 1, s0.m)
    requires s.sbrkBase == s0.sbrkBase && (s0.top != Hdr(UNSORTED) ==> s.top <= s0.top)
    ensures AboveSame(s0.m, s.m, s0.top) && Sound(s.(mark := s0.mark))
  {
    EntryFacts(s0);
    EntryFacts(s);
  }

  lemma TrimmedDown(answers: nat -> Answer, b0: Books, b1: Books, pad: int, r: bool, topSize: int)
    requires Trimmed(answers, b0, b1, pad, r, topSize)
    ensures b1.top <= b0.top
  {}
}
