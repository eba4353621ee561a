/** `sysmalloc` for the contiguous main arena: extending top, or starting a new segment behind memory
    that others have taken, with the old segment sealed by two fenceposts. */
module Segments {
  import opened Sizes
  import opened Memory
  import opened Heap
  import opened RingProofs
  import opened Steps
  import opened Arena
  import opened Free
  import opened Consolidate
  import opened System
  import opened Growth
  import opened FreeChunk
  import opened ExactFit
  import opened Top

  // ---------------------------------------------------------------- the system

  /** Others wrote to memory they own, between the end of the arena and the new space. */
  ghost predicate ForeignWrites(m: Mem, m': Mem, lo: int, hi: int) {
    forall a {:trigger m'.e(a)} {:trigger m'.o(a)} :: !(lo <= a < hi) ==> m'.e(a) == m.e(a) && m'.o(a) == m.o(a)
  }

  function Overwritten(m: Mem, junk: Mem, lo: int, hi: int): Mem {
    Mem(a => if lo <= a < hi then junk.e(a) else m.e(a), a => if lo <= a < hi then junk.o(a) else m.o(a))
  }

  /** `MORECORE(size)`: NULL stands for failure. Otherwise new, zeroed memory from the current break,
      which others may have moved, and between `end`, where the arena's own memory ends, and there
      anything may have been written. */
  method Morecore(av: MallocState, size: int, end: int) returns (b: int)
    requires size > 0 && HEAP_MIN <= end <= av.brk
    modifies av`brk, av`calls, av`m
    ensures av.calls == old(av.calls) + 1
    ensures var answer := av.answers(old(av.calls)); var found := old(av.brk) + answer.moved;
            if answer.refused then b == NULL && av.brk == found && av.m == old(av.m)
            else b == found && av.brk == b + size && ForeignWrites(old(av.m), av.m, end, b)
  {
    var answer := av.answers(av.calls);
    b := CurrentBreak(av);
    if answer.refused {
      return NULL;
    }
    av.m := Overwritten(av.m, answer.junk, end, b);
    av.brk := b + size;
  }

  /** The second call, with nothing coming in between. It may fail if the break is on a page boundary:
      WithoutCorrection says what the arena looks like if it fails elsewhere. */
  method MorecoreAgain(av: MallocState, correction: int) returns (b: int)
    requires correction >= 0 && HEAP_MIN <= av.brk
    modifies av`brk, av`calls
    ensures av.calls == old(av.calls) + 1
    ensures if RefusesMore(av.answers(old(av.calls)), old(av.brk)) then b == NULL && av.brk == old(av.brk)
            else b == old(av.brk) && av.brk == b + correction
  {
    b := av.brk;
    if RefusesMore(av.answers(av.calls), av.brk) {
      b := NULL;
    } else {
      av.brk := b + correction;
    }
    av.calls := av.calls + 1;
  }

  /** The gaps between segments are still where they were. */
  ghost predicate GapsStay(H: Heap, H': Heap) {
    forall x {:trigger H'[x]} {:trigger H[x]} :: x in H && H[x].st.Gap? ==> x in H' && H'[x] == H[x]
  }

  // ---------------------------------------------------------------- the first segment

  lemma InitSound(s: State, m1: Mem, brk: int, aligned: int, end: int)
    requires Sound(s) && s.top == Hdr(UNSORTED) && HEAP_MIN <= brk <= aligned && aligned % 16 == 0
    requires ForeignWrites(s.m, m1, HEAP_MIN, brk)
    requires end % PAGE == 0 && end - aligned >= MINSIZE
    ensures var m' := m1.SetHead(aligned, end - aligned + 1);
            && Sound(s.(m := m', base := aligned, top := aligned, sbrkBase := brk, systemMem := end - brk,
                        mark := Raised(s.mark, aligned + 16)))
            && LiveOf(s.H) == map[] && Kept(s.m, m', LiveOf(s.H)) && m'.Size(aligned) == end - aligned
  {
    hide Slots;
    var m' := m1.SetHead(aligned, end - aligned + 1);
    assert Links(m', s.H) by {
      assert RingWordsSame(s.m, m', s.H) && NextWordsSame(s.m, m', s.H) && CellWordsSame(s.m, m', s.H);
      SameHeapFrames(s.m, m', s.H, s.H);
    }
    PageMultiple(end, aligned);
    HeadDecodes(m', aligned, end - aligned);
  }

  // ---------------------------------------------------------------- a further segment

  /** Memory after the old top of the given size was sealed and the new top was set up. */
  ghost predicate GapWritten(m: Mem, m': Mem, t: int, size: int, brk: int, aligned: int, end: int) {
    var f := t + size - 32;
    && m'.Head(f) == 17 && m'.Head(f + 16) == 17 && (f != t ==> m'.Head(t) == size - 32 + 1) && m'.Head(aligned) == end - aligned + 1
    && (forall a {:trigger m'.e(a)} :: !(t + size <= a < brk) ==> m'.e(a) == m.e(a))
    && (forall a {:trigger m'.o(a)} :: !(t + size <= a < brk) && a != t && a != f && a != f + 16 && a != aligned ==> m'.o(a) == m.o(a))
  }

  /** What is left of the old top is a block to be freed if it is large enough, otherwise it stays as
      a fencepost; behind it come the two fenceposts, the second with the foreign memory. */
  ghost function GapHeap(H: Heap, t: int, size: int, aligned: int): Heap {
    var rest := size - 32;
    var H1 := if rest == 0 then H else H[t := Chunk(rest, if rest >= MINSIZE then Live else Fence)];
    H1[t + rest := Chunk(16, Fence)][t + rest + 16 := Chunk(aligned - (t + rest + 16), Gap)]
  }

  ghost predicate Gapping(s: State, m': Mem, size: int, brk: int, aligned: int, end: int) {
    && Sound(s) && Quiet(s.H) && s.top != Hdr(UNSORTED) && size == s.m.Size(s.top) && s.top + size < brk <= aligned
    && aligned % 16 == 0 && end % PAGE == 0 && end - aligned >= MINSIZE
    && GapWritten(s.m, m', s.top, size, brk, aligned, end)
  }

  lemma GapTiled(s: State, m': Mem, size: int, brk: int, aligned: int, end: int)
    requires Gapping(s, m', size, brk, aligned, end)
    ensures Tiled(GapHeap(s.H, s.top, size, aligned), s.base, aligned)
  {
    hide Links, Marks, Slots, Fresh, GapWritten, GapHeap;
    var H' := GapHeap(s.H, s.top, size, aligned);
    TopSizeFacts(s);
    GapKeys(s, size);
    forall p | p in H' ensures Placed(H', s.base, aligned, p) {
      GapPlaced(s.H, s.base, s.top, size, aligned, p);
    }
    forall p, q | p != q ensures Apart(H', p, q) {
      GapApart(s.H, s.base, s.top, size, aligned, p, q);
    }
    GapBase(s.H, s.base, s.top, size, aligned);
  }

  /** The old top of the given size can be sealed with the new top beginning at `aligned`. */
  ghost predicate Sealable(H: Heap, base: int, t: int, size: int, aligned: int) {
    && Tiled(H, base, t) && base <= t && t % 16 == 0 && size >= 32 && size % 16 == 0 && t + size < aligned && aligned % 16 == 0
    && t !in H && t + size - 32 !in H && t + size - 16 !in H
  }

  lemma GapPlaced(H: Heap, base: int, t: int, size: int, aligned: int, p: int)
    requires Sealable(H, base, t, size, aligned) && p in GapHeap(H, t, size, aligned)
    ensures Placed(GapHeap(H, t, size, aligned), base, aligned, p)
  {
    hide Tiled;
    GapMultiples(t, size, aligned);
    SealedPlaced(H, base, t, size, aligned, p);
    if p in H {
      GapPlacedOld(H, base, t, size, aligned, p);
    } else {
      GapPlacedNew(H, base, t, size, aligned, p);
    }
  }

  lemma GapMultiples(t: int, size: int, aligned: int)
    requires t % 16 == 0 && size % 16 == 0 && aligned % 16 == 0
    ensures (size - 32) % 16 == 0 && (t + size - 32) % 16 == 0 && (t + size - 16) % 16 == 0
    ensures (aligned - (t + size - 16)) % 16 == 0
  {}

  lemma SealedPlaced(H: Heap, base: int, t: int, size: int, aligned: int, p: int)
    requires Sealable(H, base, t, size, aligned)
    ensures p in H ==> Placed(H, base, t, p)
    ensures aligned !in H
  {
    assert aligned in H ==> Placed(H, base, t, aligned);
  }

  lemma GapPlacedOld(H: Heap, base: int, t: int, size: int, aligned: int, p: int)
    requires Sealable(H, base, t, size, aligned) && p in H && Placed(H, base, t, p)
    ensures Placed(GapHeap(H, t, size, aligned), base, aligned, p)
  {
    hide Tiled;
    var H' := GapHeap(H, t, size, aligned);
    assert p < t && H'[p] == H[p];
    assert forall x :: x in H ==> x in H' && H'[x] == H[x];
    assert t in H' && !H'[t].st.Gap?;
  }

  lemma GapPlacedNew(H: Heap, base: int, t: int, size: int, aligned: int, p: int)
    requires Sealable(H, base, t, size, aligned) && p in GapHeap(H, t, size, aligned) && p !in H
    requires (size - 32) % 16 == 0 && (t + size - 32) % 16 == 0 && (t + size - 16) % 16 == 0 && aligned !in H
    requires (aligned - (t + size - 16)) % 16 == 0
    ensures Placed(GapHeap(H, t, size, aligned), base, aligned, p)
  {
    hide Tiled;
    var H' := GapHeap(H, t, size, aligned);
    assert p == t || p == t + size - 32 || p == t + size - 16;
    assert size > 32 && size < 64 ==> size == 48;
  }

  lemma GapApart(H: Heap, base: int, t: int, size: int, aligned: int, p: int, q: int)
    requires Sealable(H, base, t, size, aligned) && p != q
    ensures Apart(GapHeap(H, t, size, aligned), p, q)
  {
    assert Apart(H, p, q);
    assert p in H ==> Placed(H, base, t, p);
    assert q in H ==> Placed(H, base, t, q);
  }

  lemma GapBase(H: Heap, base: int, t: int, size: int, aligned: int)
    requires Sealable(H, base, t, size, aligned)
    ensures base in GapHeap(H, t, size, aligned)
  {}

  /** No chunk lies at or above top. */
  lemma GapKeys(s: State, size: int)
    requires Sound(s) && s.top != Hdr(UNSORTED) && size == s.m.Size(s.top)
    ensures s.top !in s.H && s.top + size - 32 !in s.H && s.top + size - 16 !in s.H && size >= 32 && size % 16 == 0
  {
    hide Links, Marks, Slots, Fresh;
    TopSizeFacts(s);
    assert s.top in s.H ==> Placed(s.H, s.base, s.top, s.top);
    assert s.top + size - 32 in s.H ==> Placed(s.H, s.base, s.top, s.top + size - 32);
    assert s.top + size - 16 in s.H ==> Placed(s.H, s.base, s.top, s.top + size - 16);
  }

  lemma GapTags(s: State, m': Mem, size: int, brk: int, aligned: int, end: int)
    requires Gapping(s, m', size, brk, aligned, end)
    ensures Tags(m', GapHeap(s.H, s.top, size, aligned), aligned)
  {
    hide Links, Marks, Slots, Fresh;
    var t, H' := s.top, GapHeap(s.H, s.top, size, aligned);
    TopSizeFacts(s);
    GapKeys(s, size);
    forall p | p in H' ensures TagAt(m', H', aligned, p) {
      if p in s.H {
        assert Placed(s.H, s.base, t, p) && TagAt(s.m, s.H, t, p);
        assert !RawBefore(s.H, p);
      }
    }
  }

  lemma GapLinks(s: State, m': Mem, size: int, brk: int, aligned: int, end: int)
    requires Gapping(s, m', size, brk, aligned, end)
    ensures Links(m', GapHeap(s.H, s.top, size, aligned))
  {
    hide Marks, Slots, Fresh, Links;
    var t, H' := s.top, GapHeap(s.H, s.top, size, aligned);
    TopSizeFacts(s);
    GapKeys(s, size);
    var A := set a {:trigger Outside(s.H, a)} | t <= a <= aligned;
    forall a | a in A ensures Outside(s.H, a) {
      forall q ensures OutOf(s.H, q, a) {
        assert q in s.H ==> Placed(s.H, s.base, t, q);
      }
    }
    LooseLinks(s.m, m', s.H, s.base, t, A);
    SameHeapFrames(s.m, m', s.H, H');
  }

  ghost function GapState(s: State, m': Mem, size: int, aligned: int, end: int): State {
    s.(m := m', H := GapHeap(s.H, s.top, size, aligned), top := aligned, systemMem := end - s.sbrkBase,
       mark := Raised(s.mark, aligned + 16))
  }

  lemma GapSound(s: State, m': Mem, size: int, brk: int, aligned: int, end: int)
    requires Gapping(s, m', size, brk, aligned, end)
    ensures var s' := GapState(s, m', size, aligned, end); var H' := s'.H;
            && Sound(s') && Quiet(H') && SameListed(s.H, H') && Kept(s.m, m', LiveOf(s.H)) && m'.Size(aligned) == end - aligned
            && LiveOf(H') == (if size - 32 >= MINSIZE then LiveOf(s.H)[s.top := size - 32] else LiveOf(s.H))
            && GapsStay(s.H, H') && s.top !in LiveOf(s.H)
            && aligned != s.top && size % 16 == 0 && size >= 32 && size == s.sbrkBase + s.systemMem - s.top
            && s.top + size - 16 in H' && H'[s.top + size - 16].st.Gap? && s.top + size - 16 + H'[s.top + size - 16].n == aligned
  {
    hide Links, Core, Slots, Marks;
    var s' := GapState(s, m', size, aligned, end);
    TopSizeFacts(s);
    GapKeys(s, size);
    GapTiled(s, m', size, brk, aligned, end);
    GapTags(s, m', size, brk, aligned, end);
    GapLinks(s, m', size, brk, aligned, end);
    GapRest(s, m', size, brk, aligned, end);
    PageMultiple(end, aligned);
    HeadDecodes(m', aligned, end - aligned);
    CoreOf(s');
  }

  /** What is left of the old top lies between a chunk in use and a fencepost: nothing is merged with it. */
  lemma GapAlone(s: State, m': Mem, size: int, brk: int, aligned: int, end: int)
    requires Gapping(s, m', size, brk, aligned, end) && size - 32 >= MINSIZE
    ensures var s' := GapState(s, m', size, aligned, end); s.top in s'.H && MergedSize(s', s.top) == size - 32
  {
    hide Sound;
    SizesOfTop(s);
  }

  lemma SizesOfTop(s: State)
    requires Sound(s) && s.top != Hdr(UNSORTED)
    ensures s.m.Size(s.top) % 16 == 0
  {
    TopSizeFacts(s);
  }

  lemma CoreOf(s: State)
    requires s.base >= HEAP_MIN && Tiled(s.H, s.base, s.top) && Tags(s.m, s.H, s.top) && Links(s.m, s.H)
    ensures Core(s.m, s.H, s.base, s.top)
  {}

  lemma GapRest(s: State, m': Mem, size: int, brk: int, aligned: int, end: int)
    requires Gapping(s, m', size, brk, aligned, end)
    ensures var H' := GapHeap(s.H, s.top, size, aligned);
            && Marks(s.binmap, H') && Slots(s.slots, H') && Quiet(H') && SameListed(s.H, H') && Kept(s.m, m', LiveOf(s.H))
            && LiveOf(H') == (if size - 32 >= MINSIZE then LiveOf(s.H)[s.top := size - 32] else LiveOf(s.H))
            && GapsStay(s.H, H')
  {
    hide Core, TopOk, Fresh, Slots, GapWritten;
    var H' := GapHeap(s.H, s.top, size, aligned);
    GapKeys(s, size);
    RestFrame(s.H, H', s.binmap, s.slots);
    QuietFrame(s.H, H');
    GapKept(s, m', size, brk, aligned, end);
  }

  lemma GapKept(s: State, m': Mem, size: int, brk: int, aligned: int, end: int)
    requires Gapping(s, m', size, brk, aligned, end)
    ensures Kept(s.m, m', LiveOf(s.H))
  {
    hide Links, Marks, Slots, Fresh, Quiet, TopOk;
    var L := LiveOf(s.H);
    TopSizeFacts(s);
    forall p | p in L ensures SameUser(s.m, m', p, L[p]) {
      assert Placed(s.H, s.base, s.top, p);
    }
  }

  // ---------------------------------------------------------------- the operation

  /** The new top is set up behind the old one of the given size, but nothing was done to the old one. */
  ghost predicate Sealing(av: MallocState, s0: State, m1: Mem, size: int, brk: int, aligned: int, end: int)
    reads av
  {
    && Sound(s0) && Quiet(s0.H) && s0.top != Hdr(UNSORTED) && size == s0.m.Size(s0.top)
    && s0.top + size < brk <= aligned && aligned % 16 == 0 && end % PAGE == 0 && end - aligned >= MINSIZE
    && ForeignWrites(s0.m, m1, s0.top + size, brk) && av.m == m1.SetHead(aligned, end - aligned + 1)
    && av.S() == s0.(m := av.m, top := aligned, systemMem := end - s0.sbrkBase) && HEAP_MIN <= av.brk == end
    && (!av.haveFastchunks ==> FastEmpty(s0.H, NFASTBINS))
  }

  /** The heads of what is left of the old top and of the two fenceposts behind it. */
  method Fenceposts(av: MallocState, ghost s0: State, ghost m1: Mem, oldTop: int, oldSize0: int, ghost brk: int, ghost aligned: int, ghost end: int)
    returns (oldSize: int)
    requires Sealing(av, s0, m1, oldSize0, brk, aligned, end) && oldTop == s0.top
    modifies av`m, av`H, av`mark
    ensures av.Valid() && av.top == aligned && SameCached(s0.H, av.H) && GapsStay(s0.H, av.H) && Kept(s0.m, av.m, LiveOf(s0.H))
    ensures oldSize == oldSize0 - 32 && oldSize >= 0 && oldSize % 16 == 0 && oldTop !in LiveOf(s0.H) && av.sbrkBase + av.systemMem == end && aligned > HEAP_MIN
    ensures LiveOf(av.H) == if oldSize >= MINSIZE then LiveOf(s0.H)[oldTop := oldSize] else LiveOf(s0.H)
    ensures oldSize >= MINSIZE ==> oldTop in av.H && MergedSize(av.S(), oldTop) == oldSize
    ensures var g := oldTop + oldSize + 16; g in av.H && av.H[g].st.Gap? && g + av.H[g].n == aligned
    ensures av.mark == Raised(s0.mark, aligned + 16)
  {
    hide Sound, Kept, LiveOf, Quiet, GapHeap, Mem.SetHead, GapsStay, SameCached, SameListed, ForeignWrites, GapWritten, MergedSize, FastEmpty;
    SealedWords(s0, m1, oldSize0, brk, aligned, end);
    oldSize := (oldSize0 - 2 * CHUNK_HDR_SZ) - (oldSize0 - 2 * CHUNK_HDR_SZ) % 16;
    av.m := av.m.SetHead(oldTop, oldSize + 1);
    av.m := av.m.SetHead(oldTop + oldSize, CHUNK_HDR_SZ + 1);
    av.m := av.m.SetHead(oldTop + oldSize + CHUNK_HDR_SZ, CHUNK_HDR_SZ + 1);
    GapSound(s0, av.m, oldSize0, brk, aligned, end);
    ghost var s1 := GapState(s0, av.m, oldSize0, aligned, end);
    av.H := s1.H;
    av.mark := s1.mark;
    CachedFrame(s0.H, s1.H);
    ListedEmpty(s0.H, s1.H);
    if oldSize >= MINSIZE {
      GapAlone(s0, av.m, oldSize0, brk, aligned, end);
    }
  }

  /** Two fenceposts at the end of the old top; the rest of it is freed if it makes a chunk. */
  method SealOld(av: MallocState, ghost s0: State, ghost m1: Mem, oldTop: int, oldSize0: int, ghost brk: int, ghost aligned: int, ghost end: int)
    returns (ghost released: int)
    requires Sealing(av, s0, m1, oldSize0, brk, aligned, end) && oldTop == s0.top
    modifies av`m, av`H, av`top, av`binmap, av`haveFastchunks, av`brk, av`calls, av`systemMem, av`mark
    ensures av.Valid() && av.top == aligned && SameCached(s0.H, av.H) && GapsStay(s0.H, av.H)
    ensures LiveOf(av.H) == LiveOf(s0.H) && Kept(s0.m, av.m, LiveOf(s0.H))
    ensures av.m.Size(aligned) + released == end - aligned
    ensures released == Shed(av.answers, old(av.calls), TrimOffer(oldSize0 - 32, end - aligned))
    ensures av.mark == Raised(s0.mark, aligned + 16)
  {
    hide Sound, Kept, LiveOf, Quiet, Mem.SetHead, GapsStay, SameCached, SameListed, ForeignWrites, MergedSize, Shed, TrimOffer, FastEmpty;
    released := 0;
    var oldSize := Fenceposts(av, s0, m1, oldTop, oldSize0, brk, aligned, end);
    NothingShed(av.answers, av.calls, oldSize, end - aligned);
    if oldSize >= MINSIZE {
      ghost var s1 := av.S();
      released := FreeRest(av, s0, oldTop, oldSize, aligned);
      SameCachedTrans(s0.H, s1.H, av.H);
      GapsTrans(s0.H, s1.H, av.H);
    }
    SealedTop(av.S(), aligned);
  }

  lemma NothingShed(answers: nat -> Answer, calls: nat, size: int, topSize: int)
    ensures size < 65536 ==> Shed(answers, calls, TrimOffer(size, topSize)) == 0
  {}

  /** What is offered after a free is not negative. */
  lemma OfferedShed(answers: nat -> Answer, calls: nat, size: int, topSize: int)
    ensures var extra := TrimOffer(size, topSize);
            extra >= 0 && (extra != 0 && answers(calls).moved == 0 ==> Shed(answers, calls, extra) == Yielded(answers(calls + 1), extra))
  {
    if topSize >= TRIM_THRESHOLD {
      OfferAbove(topSize, TOP_PAD);
    }
  }

  lemma SealedTop(s: State, aligned: int)
    requires Sound(s) && s.top == aligned && s.top != Hdr(UNSORTED)
    ensures s.m.Size(aligned) == s.sbrkBase + s.systemMem - aligned
  {
    TopSizeFacts(s);
  }

  /** What is left of the old top goes back to the bins; the gap keeps it from reaching the new top. */
  method FreeRest(av: MallocState, ghost s0: State, oldTop: int, rest: int, ghost aligned: int) returns (ghost released: int)
    requires av.Valid() && av.top == aligned && oldTop !in LiveOf(s0.H) && LiveOf(av.H) == LiveOf(s0.H)[oldTop := rest]
    requires oldTop + rest + 16 in av.H && av.H[oldTop + rest + 16].st.Gap? && oldTop + rest + 16 + av.H[oldTop + rest + 16].n == aligned
    requires Kept(s0.m, av.m, LiveOf(s0.H)) && rest >= MINSIZE && rest % 16 == 0
    requires oldTop in av.H && MergedSize(av.S(), oldTop) == rest && av.brk == av.sbrkBase + av.systemMem
    modifies av`m, av`H, av`top, av`binmap, av`haveFastchunks, av`brk, av`calls, av`systemMem
    ensures av.Valid() && av.top == aligned && SameCached(old(av.H), av.H) && GapsStay(old(av.H), av.H)
    ensures LiveOf(av.H) == LiveOf(s0.H) && Kept(s0.m, av.m, LiveOf(s0.H))
    ensures released == old(av.systemMem) - av.systemMem
    ensures released == Shed(av.answers, old(av.calls), TrimOffer(rest, av.m.Size(aligned) + released))
  {
    hide Sound, Kept, LiveOf, Quiet, GapsStay, SameCached, SameFences, MergedSize, TrimOffer, Given, Yielded, FastEmpty;
    ghost var s1, calls0 := av.S(), av.calls;
    LeftOver(s1, oldTop, rest + 32);
    IntFreeChunk(av, oldTop, av.m.Size(oldTop));
    FencesGaps(s1.H, av.H);
    LiveBack(s0.H, s1.H, av.H, oldTop, rest);
    KeptTrans(s0.m, s1.m, av.m, LiveOf(s0.H));
    WallHolds(av.S(), s1.H, oldTop + rest + 16, aligned);
    released := s1.systemMem - av.systemMem;
    NothingShed(av.answers, calls0, rest, av.m.Size(aligned) + released);
    OfferedShed(av.answers, calls0, rest, av.m.Size(aligned) + released);
  }

  lemma OldEnd(s: State)
    requires Sound(s)
    ensures s.m.Size(s.top) >= 0 && (s.top != Hdr(UNSORTED) ==> s.top + s.m.Size(s.top) == s.sbrkBase + s.systemMem)
    ensures s.top == Hdr(UNSORTED) <==> s.m.Size(s.top) == 0
  {
    if s.top != Hdr(UNSORTED) {
      TopSizeFacts(s);
    }
  }

  /** How much to skip at the front of the new space, and how much more to ask for so that nothing is lost
      and the end is on a page boundary. */
  method Amends(brk: int, size: int, oldSize: int) returns (correction: int, alignedBrk: int)
    requires size >= 0 && oldSize >= 0
    ensures correction == Correction(brk, size, oldSize) && alignedBrk == brk + FrontSkip(brk)
  {
    hide AlignUp;
    NewSegmentFits(brk, size, oldSize);
    correction, alignedBrk := 0, brk;
    var frontMisalign := (brk + 16) % 16;
    if frontMisalign > 0 {
      correction := 16 - frontMisalign;
      alignedBrk := alignedBrk + correction;
    }
    correction := correction + oldSize;
    var endMisalign := brk + size + correction;
    correction := correction + (AlignUp(endMisalign, PAGE) - endMisalign);
    if correction < 0 {
      assert false; // assert (correction >= 0)
    }
  }

  /** The second request for memory: where the new top begins and ends. */
  method FindEnd(av: MallocState, brk: int, size: int, oldSize: int)
    returns (correction: int, alignedBrk: int, sndBrk: int, ghost whole: bool)
    requires size > 0 && size % PAGE == 0 && oldSize >= 0 && av.brk == brk + size && HEAP_MIN <= brk && size + oldSize >= MINSIZE
    modifies av`brk, av`calls
    ensures var end := sndBrk + correction;
            && av.brk == end && end % PAGE == 0 && brk <= alignedBrk && alignedBrk % 16 == 0 && end - alignedBrk >= MINSIZE
            && correction >= 0 && sndBrk == brk + size && end - alignedBrk == TopAfter(brk, size, oldSize, whole)
    ensures av.calls == old(av.calls) + 1 && whole == !RefusesMore(av.answers(old(av.calls)), brk + size) && alignedBrk == brk + FrontSkip(brk)
  {
    hide Correction, FrontSkip, AlignUp;
    NewSegmentFits(brk, size, oldSize);
    correction, alignedBrk := Amends(brk, size, oldSize);
    sndBrk := MorecoreAgain(av, correction);
    whole := sndBrk != NULL;
    if sndBrk == NULL {
      correction := 0;
      sndBrk := av.brk;
      PageStart(brk, size);
      FrontSkipFacts(brk);
    }
  }

  /** The first top is where the arena begins. */
  ghost method FirstTop(av: MallocState, s0: State, m1: Mem, brk: int, aligned: int, end: int)
    requires !av.haveFastchunks ==> FastEmpty(s0.H, NFASTBINS)
    requires Sound(s0) && Quiet(s0.H) && s0.top == Hdr(UNSORTED) && HEAP_MIN <= brk <= aligned && aligned % 16 == 0
    requires ForeignWrites(s0.m, m1, HEAP_MIN, brk) && end % PAGE == 0 && end - aligned >= MINSIZE
    requires av.S() == s0.(m := m1.SetHead(aligned, end - aligned + 1), top := aligned, sbrkBase := brk, systemMem := end - brk) && av.brk == end
    modifies av`base, av`mark
    ensures av.Valid() && SameCached(s0.H, av.H) && GapsStay(s0.H, av.H) && av.base == aligned
    ensures LiveOf(av.H) == LiveOf(s0.H) && Kept(s0.m, av.m, LiveOf(s0.H)) && av.m.Size(aligned) == end - aligned
    ensures av.mark == Raised(s0.mark, aligned + 16)
  {
    hide Sound, Kept, LiveOf, Quiet, GapsStay, SameCached, ForeignWrites, Mem.SetHead, FastEmpty;
    InitSound(s0, m1, brk, aligned, end);
    av.base := aligned;
    av.mark := Raised(s0.mark, aligned + 16);
    SameCachedRefl(av.H);
  }

  /** The branch for space that does not join the old top: skip to an aligned address, ask for the
      correction, set up the new top, and seal and free what is left of the old one. */
  method NewSegment(av: MallocState, ghost s0: State, oldTop: int, oldSize0: int, brk: int, size: int)
    returns (ghost g: Growth)
    requires Sound(s0) && Quiet(s0.H) && oldTop == s0.top && oldSize0 == s0.m.Size(oldTop) && size > 0 && size % PAGE == 0
    requires av.H == s0.H && av.top == s0.top && av.base == s0.base && av.binmap == s0.binmap && av.numSlots == s0.slots && av.mark == s0.mark
    requires !av.haveFastchunks ==> FastEmpty(s0.H, NFASTBINS)
    requires av.brk == brk + size && HEAP_MIN <= brk && (oldTop == Hdr(UNSORTED) <==> oldSize0 == 0) && size + oldSize0 >= MINSIZE
    requires if oldSize0 == 0 then
               av.sbrkBase == brk && av.systemMem == size && ForeignWrites(s0.m, av.m, HEAP_MIN, brk)
             else
               && oldTop + oldSize0 < brk && ForeignWrites(s0.m, av.m, oldTop + oldSize0, brk)
               && av.sbrkBase == s0.sbrkBase && av.systemMem == s0.systemMem + size
    modifies av`m, av`H, av`top, av`binmap, av`haveFastchunks, av`brk, av`calls, av`systemMem, av`base, av`mark
    ensures av.Valid() && av.top >= brk && av.top != Hdr(UNSORTED) && SameCached(s0.H, av.H) && GapsStay(s0.H, av.H)
    ensures LiveOf(av.H) == LiveOf(s0.H) && Kept(s0.m, av.m, LiveOf(s0.H))
    ensures g.Grown? && av.m.Size(av.top) == g.topSize - g.released
    ensures if oldSize0 == 0 then av.base == av.top == brk + FrontSkip(brk) && av.calls == old(av.calls) + 1 && av.brk == av.sbrkBase + av.systemMem else av.base == s0.base
    ensures brk != oldTop + oldSize0 ==> g == Extended(av.answers, old(av.calls), brk, oldTop + oldSize0, oldSize0, size)
    ensures av.mark == Raised(s0.mark, av.top + 16)
  {
    hide FrontSkip, Sound, Kept, LiveOf, Quiet, GapHeap, Put, GapsStay, SameCached;
    hide SameListed, ForeignWrites, TopAfter, Mem.SetHead, TrimOffer, Shed, RefusesMore, Mem.Size, FastEmpty;
    ghost var m1 := av.m;
    var oldSize, oldEnd := oldSize0, oldTop + oldSize0;
    OldEnd(s0);
    if oldSize != 0 {
      av.systemMem := av.systemMem + (brk - oldEnd);
    }
    var correction, alignedBrk, sndBrk;
    ghost var whole;
    correction, alignedBrk, sndBrk, whole := FindEnd(av, brk, size, oldSize);
    ghost var end := sndBrk + correction;
    av.top := alignedBrk;
    av.m := av.m.SetHead(av.top, sndBrk - alignedBrk + correction + 1);
    av.systemMem := av.systemMem + correction;
    ghost var released := 0;
    NoOffer(av.answers, av.calls);
    if oldSize != 0 {
      released := SealOld(av, s0, m1, oldTop, oldSize, brk, alignedBrk, end);
    } else {
      FirstTop(av, s0, m1, brk, alignedBrk, end);
    }
    g := Grown(whole, end - alignedBrk, released);
  }

  lemma NoOffer(answers: nat -> Answer, calls: nat)
    ensures Shed(answers, calls, 0) == 0
  {}

  /** Fenceposts that stay what they are leave the gaps where they are. */
  lemma FencesGaps(H: Heap, H': Heap)
    requires SameFences(H, H')
    ensures GapsStay(H, H')
  {
    forall x | x in H && H[x].st.Gap? ensures x in H' && H'[x] == H[x] {
      assert IsFence(H, x);
    }
  }

  lemma SameCachedRefl(H: Heap)
    ensures SameCached(H, H) && GapsStay(H, H)
  {}

  lemma GapsTrans(H0: Heap, H1: Heap, H2: Heap)
    requires GapsStay(H0, H1) && GapsStay(H1, H2)
    ensures GapsStay(H0, H2)
  {
    forall x | x in H0 && H0[x].st.Gap? ensures x in H2 && H2[x] == H0[x] {
      assert H1[x] == H0[x];
    }
  }

  lemma SealedWords(s: State, m1: Mem, size: int, brk: int, aligned: int, end: int)
    requires Sound(s) && s.top != Hdr(UNSORTED) && size == s.m.Size(s.top) && s.top + size < brk <= aligned
    requires ForeignWrites(s.m, m1, s.top + size, brk)
    ensures s.top >= HEAP_MIN && size % 16 == 0 && size >= 32 && (size - 32) % 16 == 0 && s.sbrkBase + s.systemMem == s.top + size
    ensures var m' := m1.SetHead(aligned, end - aligned + 1).SetHead(s.top, size - 32 + 1).SetHead(s.top + (size - 32), 17).SetHead(s.top + (size - 32) + 16, 17);
            GapWritten(s.m, m', s.top, size, brk, aligned, end)
  {
    hide Links, Marks, Slots, Fresh;
    TopSizeFacts(s);
  }

  /** What is left of the old top can be freed like a block. */
  lemma LeftOver(s1: State, t: int, size: int)
    requires Sound(s1) && size >= 64 && size % 16 == 0 && t in LiveOf(s1.H) && LiveOf(s1.H)[t] == size - 32
    ensures t in s1.H && s1.m.Size(t) == s1.H[t].n == size - 32
  {
    hide Links, Marks, Slots, Fresh;
    assert Placed(s1.H, s1.base, s1.top, t) && TagAt(s1.m, s1.H, s1.top, t);
    HeadDecodes(s1.m, t, size - 32);
  }

  lemma LiveBack(H0: Heap, H1: Heap, H2: Heap, t: int, rest: int)
    requires t !in LiveOf(H0) && LiveOf(H1) == LiveOf(H0)[t := rest] && LiveOf(H2) == LiveOf(H1) - {t}
    ensures LiveOf(H2) == LiveOf(H0)
  {}

  /** With a gap right below it, top cannot move down. */
  lemma WallHolds(s: State, H1: Heap, g: int, aligned: int)
    requires Sound(s) && g in H1 && H1[g].st.Gap? && g + H1[g].n == aligned && GapsStay(H1, s.H) && s.top <= aligned
    ensures s.top == aligned
  {
    hide Links, Marks, Slots, Fresh;
    assert s.H[g] == H1[g];
    assert Placed(s.H, s.base, s.top, g);
  }

  // ---------------------------------------------------------------- sysmalloc

  /** What the assertions at the start of sysmalloc say. */
  lemma EntryFacts(s: State)
    requires Sound(s)
    ensures var t, n := s.top, s.m.Size(s.top);
            && ((t == Hdr(UNSORTED) && n == 0) || (n >= MINSIZE && s.m.PrevInuse(t) && (t + n) % PAGE == 0))
    ensures s.m.Size(s.top) >= 0 && (s.top != Hdr(UNSORTED) ==> s.top + s.m.Size(s.top) == s.sbrkBase + s.systemMem && s.top + s.m.Size(s.top) >= HEAP_MIN)
    ensures s.top == Hdr(UNSORTED) <==> s.sbrkBase == NULL
    ensures s.top == Hdr(UNSORTED) <==> s.m.Size(s.top) == 0
    ensures s.top == Hdr(UNSORTED) ==> s.systemMem == 0
    ensures s.top != Hdr(UNSORTED) ==> s.sbrkBase >= HEAP_MIN && s.top >= HEAP_MIN && s.systemMem >= MINSIZE
  {
    if s.top != Hdr(UNSORTED) {
      TopSizeFacts(s);
      PageMultiple(s.sbrkBase + s.systemMem, s.top);
      HeadDecodes(s.m, s.top, s.sbrkBase + s.systemMem - s.top);
    }
  }

  /** Raising the mark is always right. */
  lemma MarkRaised(s: State, at: int)
    requires Sound(s)
    ensures Sound(s.(mark := Raised(s.mark, at)))
  {}

  /** New space from `brk` on: it joins top if it begins where top ends, otherwise it is a new segment. */
  method Enlarge(av: MallocState, ghost s0: State, oldTop: int, oldSize: int, brk: int, size: int)
    returns (ghost g: Growth)
    requires Sound(s0) && Quiet(s0.H) && oldTop == s0.top && oldSize == s0.m.Size(oldTop) && size > 0 && size % PAGE == 0
    requires av.S() == s0.(m := av.m) && av.brk == brk + size && HEAP_MIN <= brk && size + oldSize >= MINSIZE
    requires !av.haveFastchunks ==> FastEmpty(s0.H, NFASTBINS)
    requires var end := if oldSize == 0 then HEAP_MIN else oldTop + oldSize; end <= brk && ForeignWrites(s0.m, av.m, end, brk)
    modifies av`m, av`H, av`top, av`binmap, av`haveFastchunks, av`brk, av`calls, av`systemMem, av`base, av`mark, av`sbrkBase
    ensures av.Valid() && av.top != Hdr(UNSORTED) && SameCached(s0.H, av.H) && GapsStay(s0.H, av.H)
    ensures LiveOf(av.H) == LiveOf(s0.H) && Kept(s0.m, av.m, LiveOf(s0.H))
    ensures g == Extended(av.answers, old(av.calls), brk, oldTop + oldSize, oldSize, size) && g.Grown? && av.m.Size(av.top) == g.topSize - g.released
    ensures if s0.top == Hdr(UNSORTED) then av.base == av.top == brk + FrontSkip(brk) && av.sbrkBase == brk && av.calls == old(av.calls) + 1 && av.brk == av.sbrkBase + av.systemMem
            else av.base == s0.base && (brk == oldTop + oldSize ==> av.top == oldTop)
    ensures s0.sbrkBase != NULL ==> av.sbrkBase == s0.sbrkBase
    ensures av.sbrkBase >= HEAP_MIN && (av.mark == s0.mark || (av.mark == s0.mark.(at := av.top + 16) && av.mark.at > s0.mark.at))
    ensures av.top == s0.top ==> av.mark == s0.mark
    ensures av.top == s0.top || av.top >= s0.sbrkBase + s0.systemMem
  {
    hide Sound, Kept, LiveOf, Quiet, GapsStay, SameCached, SameListed, ForeignWrites, Put, TopAfter, TrimOffer, Shed, FastEmpty;
    EntryFacts(s0);
    g := Grown(true, size + oldSize, 0);
    var oldEnd := oldTop + oldSize;
    if av.sbrkBase == NULL {
      av.sbrkBase := brk;
    }
    av.systemMem := av.systemMem + size;
    if brk == oldEnd {
      NothingForeign(s0.m, av.m, brk);
      WordsSame(s0, av.m);
      TopResized(s0.(m := av.m), size);
      ghost var m1 := av.m;
      av.m := av.m.SetHead(oldTop, size + oldSize + 1);
      KeptTrans(s0.m, m1, av.m, LiveOf(av.H));
      SameCachedRefl(av.H);
      EntryFacts(av.S());
    } else if oldSize != 0 && brk < oldEnd {
      assert false; // break adjusted to free malloc space
    } else {
      g := NewSegment(av, s0, oldTop, oldSize, brk, size);
      EntryFacts(av.S());
    }
  }

  /** What `sysmalloc` is to get. */
  function Outlook(answers: nat -> Answer, b: Books, nb: int): Growth {
    Growing(answers, b.calls, b.brk, b.top + b.topSize, b.topSize, nb)
  }

  /** Where things stand after `sysmalloc` returned `p`: success exactly if what it gets is enough, and what is
      left of that is top. Space that joins the old top serves from there; the first space of all is
      where the arena begins. */
  ghost predicate Grew(answers: nat -> Answer, b0: Books, b1: Books, nb: int, p: int) {
    var g, found := Outlook(answers, b0, nb), b0.brk + answers(b0.calls).moved;
    var got := if g.Grown? then g.topSize - g.released else b0.topSize;
    && (p != NULL <==> Enough(g, nb)) && (p != NULL ==> b1.top == p + nb)
    && b1.topSize == (if p != NULL then got - nb else got)
    && b1.maxSystemMem == (if b0.maxSystemMem >= b1.systemMem then b0.maxSystemMem else b1.systemMem)
    && (if b0.top != Hdr(UNSORTED) then
          && b1.sbrkBase == b0.sbrkBase && b1.base == b0.base
          && (p != NULL && found == b0.top + b0.topSize ==> p == b0.top)
        else
          g.Grown? ==>
            && b1.sbrkBase == found && b1.base == found + FrontSkip(found) && b1.calls == b0.calls + 2
            && b1.brk == b1.sbrkBase + b1.systemMem && (p != NULL ==> p == b1.base))
  }

  /** Get more memory from the system and cut nb bytes from it. The call succeeds exactly if what it gets
      is enough. */
  method Sysmalloc(av: MallocState, nb: int) returns (p: int)
    requires av.Settled() && nb % 16 == 0 && nb >= MINSIZE && av.m.Size(av.top) < nb + MINSIZE
    modifies av`m, av`H, av`top, av`binmap, av`haveFastchunks, av`brk, av`calls, av`systemMem, av`maxSystemMem, av`sbrkBase, av`base, av`mark
    ensures old(av.Recorded()) ==> av.Recorded()
    ensures av.Settled() && SameCached(old(av.H), av.H) && GapsStay(old(av.H), av.H)
    ensures p == NULL ==> LiveOf(av.H) == old(LiveOf(av.H)) && Kept(old(av.m), av.m, LiveOf(av.H))
    ensures p != NULL ==> Granted(old(av.H), av.H, p, nb) && LiveOf(av.H)[p] == nb && Kept(old(av.m), av.m, old(LiveOf(av.H)))
    ensures p != NULL ==> p == old(av.top) || p >= old(av.sbrkBase + av.systemMem)
    ensures p != NULL && p == old(av.top) ==> Untouched(av.m, p, nb, old(av.mark))
    ensures p != NULL <==> Enough(Outlook(av.answers, old(BooksOf(av)), nb), nb)
    ensures Grew(av.answers, old(BooksOf(av)), BooksOf(av), nb, p) && (p != NULL ==> av.m.PrevInuse(p))
  {
    hide Sound, Kept, LiveOf, Quiet, GapsStay, SameCached, SameListed, ForeignWrites, Untouched, Put, Fresh, Extended, Mem.Size, FastEmpty;
    ghost var s0 := av.S();
    EntryFacts(s0);
    var oldTop := av.top;
    var oldSize := av.m.Size(oldTop);
    var oldEnd := oldTop + oldSize;
    if !((oldTop == Hdr(UNSORTED) && oldSize == 0) || (oldSize >= MINSIZE && av.m.PrevInuse(oldTop) && oldEnd % PAGE == 0)) {
      assert false; // assert (old_top == initial_top (av) && old_size == 0 || ...)
    }
    if oldSize >= nb + MINSIZE {
      assert false; // assert (old_size < nb + MINSIZE)
    }
    var size := nb + TOP_PAD + MINSIZE - oldSize;
    AlignUpFacts(size);
    size := AlignUp(size, PAGE);
    ghost var g := Obtain(av, oldTop, oldSize, size);
    p := NULL;
    size := av.m.Size(av.top);
    if size >= nb + MINSIZE {
      p := CarveLast(av, s0, nb);
    }
  }

  /** The first request and, if it is met, what is done with the new space. */
  method Obtain(av: MallocState, oldTop: int, oldSize: int, size: int) returns (ghost g: Growth)
    requires av.Settled() && oldTop == av.top && oldSize == av.m.Size(oldTop) && size > 0 && size % PAGE == 0 && size + oldSize >= MINSIZE
    modifies av`m, av`H, av`top, av`binmap, av`haveFastchunks, av`brk, av`calls, av`systemMem, av`maxSystemMem, av`sbrkBase, av`base, av`mark
    ensures av.Settled() && SameCached(old(av.H), av.H) && GapsStay(old(av.H), av.H)
    ensures LiveOf(av.H) == LiveOf(old(av.H)) && Kept(old(av.m), av.m, LiveOf(old(av.H)))
    ensures var answer := av.answers(old(av.calls));
            g == if answer.refused then Refused
                 else Extended(av.answers, old(av.calls) + 1, old(av.brk) + answer.moved, oldTop + oldSize, oldSize, size)
    ensures if g.Grown? then av.m.Size(av.top) == g.topSize - g.released else av.top == oldTop && av.m.Size(av.top) == oldSize
    ensures var found := old(av.brk) + av.answers(old(av.calls)).moved;
            if oldTop == Hdr(UNSORTED) then
              g.Grown? ==> av.base == av.top == found + FrontSkip(found) && av.sbrkBase == found && av.calls == old(av.calls) + 2 && av.brk == av.sbrkBase + av.systemMem
            else
              av.sbrkBase == old(av.sbrkBase) && av.base == old(av.base) && (found == oldTop + oldSize ==> av.top == oldTop)
    ensures av.maxSystemMem == if old(av.maxSystemMem) >= av.systemMem then old(av.maxSystemMem) else av.systemMem
    ensures av.top == oldTop || av.top >= old(av.sbrkBase + av.systemMem)
    ensures (av.top == oldTop ==> Fresh(av.m, old(av.mark))) && (old(av.Recorded()) ==> av.Recorded())
  {
    hide Sound, Kept, LiveOf, Quiet, GapsStay, SameCached, SameListed, ForeignWrites, Put, Fresh, Extended, Mem.Size, FastEmpty;
    ghost var s0 := av.S();
    EntryFacts(s0);
    FreshOf(s0);
    g := Refused;
    var brk := NULL;
    if size > 0 {
      brk := Morecore(av, size, if oldSize == 0 then HEAP_MIN else oldTop + oldSize);
    }
    SameCachedRefl(av.H);
    KeptRefl(av.m, LiveOf(av.H));
    if brk != NULL {
      g := Enlarge(av, s0, oldTop, oldSize, brk, size);
    }
    RecordMaximum(av, s0.sbrkBase, s0.mark);
  }

  /** Keep account of the largest system_mem. */
  method RecordMaximum(av: MallocState, ghost sbrkBase0: int, ghost mark0: Beyond)
    requires av.Valid() && mark0.at >= sbrkBase0 + av.maxSystemMem && (sbrkBase0 == NULL ==> av.maxSystemMem == 0)
    requires sbrkBase0 != NULL ==> av.sbrkBase == sbrkBase0
    requires av.mark == mark0 || (av.mark == mark0.(at := av.top + 16) && av.mark.at > mark0.at && av.top != Hdr(UNSORTED))
    modifies av`maxSystemMem, av`mark
    ensures av.Settled() && Fresh(av.m, old(av.mark))
    ensures av.maxSystemMem == if old(av.maxSystemMem) >= av.systemMem then old(av.maxSystemMem) else av.systemMem
    ensures mark0.at == sbrkBase0 + old(av.maxSystemMem) && Unwritten(mark0) ==> av.Recorded()
  {
    hide Sound, Quiet, Fresh, FastEmpty;
    EntryFacts(av.S());
    FreshOf(av.S());
    if av.systemMem > av.maxSystemMem {
      av.maxSystemMem := av.systemMem;
    }
    MarkRaised(av.S(), av.sbrkBase + av.maxSystemMem);
    av.mark := Raised(av.mark, av.sbrkBase + av.maxSystemMem);
  }

  lemma FreshOf(s: State)
    requires Sound(s)
    ensures Fresh(s.m, s.mark)
  {}

  lemma GapsKept(H: Heap, p: int, n: int)
    ensures p !in H ==> GapsStay(H, H[p := Chunk(n, Live)])
  {}

  lemma LiveGranted(H0: Heap, H1: Heap, H2: Heap, p: int, nb: int)
    requires LiveOf(H0) == LiveOf(H1) && Granted(H1, H2, p, nb)
    ensures Granted(H0, H2, p, nb)
  {}

  /** The allocation proper. */
  method CarveLast(av: MallocState, ghost s0: State, nb: int) returns (p: int)
    requires av.Settled() && nb % 16 == 0 && nb >= MINSIZE && av.m.Size(av.top) >= nb + MINSIZE
    requires SameCached(s0.H, av.H) && GapsStay(s0.H, av.H) && LiveOf(av.H) == LiveOf(s0.H) && Kept(s0.m, av.m, LiveOf(s0.H))
    requires av.top == s0.top ==> Fresh(av.m, s0.mark)
    modifies av`m, av`H, av`top
    ensures av.top == p + nb && av.m.Size(av.top) == old(av.m.Size(av.top)) - nb && av.m.PrevInuse(p)
    ensures av.Settled() && SameCached(s0.H, av.H) && GapsStay(s0.H, av.H)
    ensures p != NULL && Granted(s0.H, av.H, p, nb) && LiveOf(av.H)[p] == nb && Kept(s0.m, av.m, LiveOf(s0.H))
    ensures p == old(av.top) && (p == s0.top ==> Untouched(av.m, p, nb, s0.mark))
  {
    hide Sound, Kept, LiveOf, Quiet, GapsStay, SameCached, SameListed, Untouched, Put, Fresh, Granted, FastEmpty;
    ghost var s1 := av.S();
    EntryFacts(s1);
    FreshOf(s1);
    p := CarveTop(av, nb, if av.top == s0.top then s0.mark else av.mark);
    EntryFacts(av.S());
    CachedFrame(s1.H, av.H);
    SameCachedTrans(s0.H, s1.H, av.H);
    GapsKept(s1.H, p, nb);
    GapsTrans(s0.H, s1.H, av.H);
    KeptTrans(s0.m, s1.m, av.m, LiveOf(s0.H));
    LiveGranted(s0.H, s1.H, av.H, p, nb);
  }

  lemma NothingForeign(m: Mem, m': Mem, a: int)
    requires ForeignWrites(m, m', a, a)
    ensures forall x {:trigger m'.e(x)} {:trigger m'.o(x)} :: m'.e(x) == m.e(x) && m'.o(x) == m.o(x)
  {}

  lemma WordsSame(s: State, m': Mem)
    requires Sound(s) && (forall a {:trigger m'.e(a)} {:trigger m'.o(a)} :: m'.e(a) == s.m.e(a) && m'.o(a) == s.m.o(a))
    ensures Sound(s.(m := m')) && Kept(s.m, m', LiveOf(s.H)) && m'.Size(s.top) == s.m.Size(s.top)
  {
    WordsSound(s, m');
  }
}
