/** `_int_free_merge_chunk` and `_int_free_chunk`: giving a live block back to the arena. */
module FreeChunk {
  import opened Sizes
  import opened Memory
  import opened Protect
  import opened Heap
  import opened RingProofs
  import opened ListProofs
  import opened Steps
  import opened ListingProofs
  import opened Arena
  import opened Binmap
  import opened Free
  import opened Consolidate
  import opened System
  import opened ListEntries

  const MAX_FAST := 128

  lemma CachedFrame(H: Heap, H': Heap)
    requires SameListed(H, H')
    ensures SameCached(H, H') && FastSub(H, H')
  {}

  /** The block, merged with its unused neighbours, is the beginning of top or the first chunk of the bin
      for its size. */
  ghost predicate Lands(s0: State, s1: State, p: int)
    requires p in s0.H
  {
    var at, size := MergedAt(s0, p), MergedSize(s0, p);
    if p + s0.H[p].n == s0.top then
      s1.top == at && (s0.m.PrevInuse(p) ==> s1.m == TopWords(s0.m, p, size))
    else
      s1.top == s0.top && InBin(s1.H, at, FreeBin(size)) && s1.H[at].n == size && s1.m.Fd(Hdr(FreeBin(size))) == at
  }

  /** What follows when a chunk of the given size was freed: the arena is trimmed, or it is not. */
  ghost predicate TrimmedFor(answers: nat -> Answer, b0: Books, b1: Books, size: int) {
    var released := b0.systemMem - b1.systemMem;
    && b1 == b0.(top := b1.top, topSize := b1.topSize, systemMem := b1.systemMem, calls := b1.calls, brk := b1.brk)
    && TrimDone(answers, b0.calls, b0.brk, b0.sbrkBase + b0.systemMem, TrimOffer(size, b1.topSize + released), b1.calls, b1.brk, released)
  }

  /** Block `p` was merged with its unused neighbours: all of it is in the bins or in top. Only if 65536 bytes or
      more came together are the fastbins emptied, and the arena perhaps trimmed. */
  ghost predicate Recycles(answers: nat -> Answer, a0: Snapshot, a1: Snapshot, p: int)
    requires p in a0.s.H
  {
    var size := MergedSize(a0.s, p);
    && (forall a {:trigger Recycled(a1.s.H, a1.s.top, a)} :: p <= a < p + a0.s.H[p].n ==> Recycled(a1.s.H, a1.s.top, a))
    && FastSub(a0.s.H, a1.s.H) && a1.s.slots == a0.s.slots && TrimmedFor(answers, a0.books, a1.books, size)
    && (p + a0.s.H[p].n == a0.s.top ==> a1.s.top <= p)
    && (if size < 65536 then Lands(a0.s, a1.s, p) && a1.fast == a0.fast else FastEmpty(a1.s.H, NFASTBINS) && !a1.fast)
  }

  /** Merge a block with its free neighbours: all of it is in the bins or in top afterwards. None of the
      double-free and next-size checks can fire for a live block. */
  method FreeMergeChunk(av: MallocState, p0: int, size0: int)
    requires av.Valid() && p0 in LiveOf(av.H) && size0 == av.H[p0].n
    modifies av`m, av`H, av`top, av`binmap, av`haveFastchunks, av`brk, av`calls, av`systemMem
    ensures av.Valid() && SameCached(old(av.H), av.H) && SameFences(old(av.H), av.H) && av.systemMem <= old(av.systemMem) && av.top <= old(av.top)
    ensures LiveOf(av.H) == old(LiveOf(av.H)) - {p0} && Kept(old(av.m), av.m, LiveOf(av.H))
    ensures av.systemMem < old(av.systemMem) ==> av.m.Size(av.top) + (old(av.systemMem) - av.systemMem) >= TRIM_THRESHOLD
    ensures Recycles(av.answers, old(Snap(av)), Snap(av), p0)
  {
    hide Sound, Kept, Recycled, TrimDone, TrimOffer, MergedSize, MergedAt, FreeBin, SameCached, SameFences, SameListed, Mem.Size, FastEmpty;
    ghost var s0 := av.S();
    BehindFacts(s0, p0);
    var nextchunk := p0 + size0;
    if p0 == av.top {
      assert false; // double free or corruption (top)
    }
    if nextchunk >= av.top + av.m.Size(av.top) {
      assert false; // double free or corruption (out)
    }
    if !av.m.PrevInuse(nextchunk) {
      assert false; // double free or corruption (!prev)
    }
    var nextsize := av.m.Size(nextchunk);
    if av.m.Head(nextchunk) <= CHUNK_HDR_SZ || nextsize >= av.systemMem {
      assert false; // free(): invalid next size (normal)
    }
    var size := MergeAround(av, p0, size0, nextchunk, nextsize);
    ghost var s2 := av.S();
    FreeMaybeConsolidate(av, size);
    KeptTrans(s0.m, s2.m, av.m, LiveOf(av.H));
    SameCachedTrans(s0.H, s2.H, av.H);
    SameFencesTrans(s0.H, s2.H, av.H);
    FastSubTrans(s0.H, s2.H, av.H);
    AllRecycled(s0, av.S(), p0);
  }

  /** The merging proper: with the chunk below, then with what follows, or into top. */
  method MergeAround(av: MallocState, p0: int, size0: int, nextchunk: int, nextsize: int) returns (size: int)
    requires av.Valid() && p0 in LiveOf(av.H) && size0 == av.H[p0].n && nextchunk == p0 + size0 && nextsize == av.m.Size(nextchunk)
    modifies av`m, av`H, av`top, av`binmap
    ensures av.Valid() && SameCached(old(av.H), av.H) && FastSub(old(av.H), av.H) && SameFences(old(av.H), av.H) && av.top <= old(av.top) && av.top != Hdr(UNSORTED)
    ensures LiveOf(av.H) == old(LiveOf(av.H)) - {p0} && Kept(old(av.m), av.m, LiveOf(av.H))
    ensures size == old(MergedSize(av.S(), p0)) && Lands(old(av.S()), av.S(), p0) && (p0 + size0 == old(av.top) ==> av.top <= p0)
  {
    hide Sound, Kept, MergedSize, SameCached, SameFences, SameListed, FreeBin;
    ghost var s0 := av.S();
    BehindFacts(s0, p0);
    var p;
    p, size := MergeBackward(av, p0, size0);
    ghost var s1 := av.S();
    TakenCreatable(s0, s1, p0, p, size);
    size := FreeCreateChunk(av, p, size, nextchunk, nextsize);
    MergedIs(s0, s1, p0, p, size0, size);
    KeptTrans(s0.m, s1.m, av.m, LiveOf(av.H));
    SameListedTrans(s0.H, s1.H, av.H);
    SameFencesTrans(s0.H, s1.H, av.H);
    QuietFrame(s0.H, av.H);
    CachedFrame(s0.H, av.H);
    TopStays(av.S(), p);
  }

  /** All bytes of the block are in binned chunks or top. */
  lemma AllRecycled(s0: State, s: State, p: int)
    requires Sound(s0) && Sound(s) && Quiet(s.H) && s.base == s0.base && p in LiveOf(s0.H) && LiveOf(s.H) == LiveOf(s0.H) - {p}
    requires SameCached(s0.H, s.H) && SameFences(s0.H, s.H) && FastSub(s0.H, s.H)
    ensures forall a {:trigger Recycled(s.H, s.top, a)} :: p <= a < p + s0.H[p].n ==> Recycled(s.H, s.top, a)
  {
    hide Sound, Recycled;
    forall a | p <= a < p + s0.H[p].n ensures Recycled(s.H, s.top, a) {
      BlockRecycled(s0, s, p, a);
    }
  }

  lemma FastSubTrans(H0: Heap, H1: Heap, H2: Heap)
    requires FastSub(H0, H1) && FastSub(H1, H2)
    ensures FastSub(H0, H2)
  {}

  lemma TopStays(s: State, p: int)
    requires Sound(s) && (p in s.H || s.top == p >= HEAP_MIN)
    ensures s.top != Hdr(UNSORTED)
  {}

  lemma SoundLists(s: State)
    requires Sound(s)
    ensures Lists(s.m, s.H) && Low(s.H) && RanksDiffer(s.H) && |s.slots| <= TCACHE_MAX_BINS
  {
    CoreLow(s.m, s.H, s.base, s.top);
  }

  lemma SoundBins(s: State)
    requires Sound(s)
    ensures BinRanksDiffer(s.H)
  {}

  /** Push a block onto its fastbin. */
  lemma FastPutSound(s: State, p: int)
    requires Sound(s) && p in s.H && s.H[p].st.Live? && s.H[p].n <= MAX_FAST && Quiet(s.H)
    ensures var l := FastIndex(s.H[p].n); var oldHead := s.m.e(Cell(l));
            && 0 <= l <= 6 && oldHead != p && (oldHead != NULL ==> FastIndex(s.m.Size(oldHead)) == l)
    ensures var l := FastIndex(s.H[p].n);
            var m' := FastPutWords(s.m, p, l); var H' := FastPutHeap(s, p, l);
            && Sound(s.(m := m', H := H')) && Quiet(H') && SameCached(s.H, H')
            && LiveOf(H') == LiveOf(s.H) - {p} && Kept(s.m, m', LiveOf(H'))
  {
    hide Entries;
    assert Placed(s.H, s.base, s.top, p);
    var l := FastIndex(s.H[p].n);
    var m', H' := FastPutWords(s.m, p, l), FastPutHeap(s, p, l);
    CoreLow(s.m, s.H, s.base, s.top);
    assert IsCell(s.H, l, Cell(l)) && ListAt(s.m, s.H, l, Cell(l));
    var v := s.m.e(Cell(l));
    if v != NULL {
      assert InList(s.H, v, l) && SingleOk(s.H, v) && TagAt(s.m, s.H, s.top, v);
      HeadDecodes(s.m, v, s.H[v].n);
    }
    assert !InList(s.H, Cell(l) - 16, l);
    MaskRoundTrip(p + 16, v);
    PutStep(s.m, m', s.H, H', s.base, s.top, p, l, Cell(l), RankBehind(s.m, s.H, l, Cell(l)));
    FastPutRest(s, p, l);
  }

  function FastPutWords(m: Mem, p: int, l: int): Mem {
    var m1 := m.SetFd(p, Mask(p + 16, m.e(Cell(l))));
    Mem(Put(m1.e, Cell(l), p), m1.o)
  }

  ghost function FastPutHeap(s: State, p: int, l: int): Heap
    requires Sound(s) && p in s.H && 0 <= l < 86
  {
    CoreLow(s.m, s.H, s.base, s.top);
    s.H[p := Chunk(s.H[p].n, Listed(l, RankBehind(s.m, s.H, l, Cell(l))))]
  }

  lemma FastPutRest(s: State, p: int, l: int)
    requires Sound(s) && p in s.H && s.H[p].st.Live? && 0 <= l < NFASTBINS && Quiet(s.H)
    ensures var m' := FastPutWords(s.m, p, l); var H' := FastPutHeap(s, p, l);
            && Marks(s.binmap, H') && Slots(s.slots, H') && Fresh(m', s.mark)
            && Quiet(H') && SameCached(s.H, H')
            && LiveOf(H') == LiveOf(s.H) - {p} && Kept(s.m, m', LiveOf(H'))
  {
    var m' := FastPutWords(s.m, p, l);
    var H' := FastPutHeap(s, p, l);
    forall b, x | 2 <= b <= 126 && InBin(H', x, b) ensures Marked(s.binmap, b) {
      assert InBin(s.H, x, b);
    }
    forall x, k ensures InList(H', x, k) <==> InList(s.H, x, k) || (x == p && k == l) {}
    forall k | k >= NFASTBINS ensures Members(H', k) == Members(s.H, k) {
      forall x ensures x in Members(H', k) <==> x in Members(s.H, k) {
        assert InList(H', x, k) <==> InList(s.H, x, k);
      }
    }
    assert LiveOf(H') == LiveOf(s.H) - {p};
    assert Placed(s.H, s.base, s.top, p) && InBody(s.H, p, p + 16);
    ReleasedKept(s, m', H', p, p);
  }

  /** Stores inside a block that is no longer live, or inside a free one, touch no live block. */
  lemma ReleasedKept(s: State, m': Mem, H': Heap, p: int, y: int)
    requires Sound(s) && p in s.H && Touches(s.m, m', s.H, p, y, y, y) && (y == p || NotLive(s.H, y))
    requires LiveOf(H') == LiveOf(s.H) - {p}
    ensures Kept(s.m, m', LiveOf(H')) && Fresh(m', s.mark)
  {
    hide Links, Marks, Slots;
    var L := LiveOf(H');
    assert Placed(s.H, s.base, s.top, p) && (y in s.H ==> Placed(s.H, s.base, s.top, y));
    forall x | x in L ensures SameUser(s.m, m', x, L[x]) {
      assert x in LiveOf(s.H) && x != p && Apart(s.H, x, p) && Placed(s.H, s.base, s.top, x);
      assert x != y ==> Apart(s.H, x, y);
    }
    FreshKeeps(s, m');
  }

  /** The block is the first entry of its fastbin, and the other lists are as they were. */
  lemma FastEnters(s: State, s1: State, p: int)
    requires Sound(s) && Sound(s1) && p in s.H && s.H[p].st.Live? && 0 <= FastIndex(s.H[p].n) <= 6 && s1.H == FastPutHeap(s, p, FastIndex(s.H[p].n))
    ensures EntersFront(s.H, s1.H, FastIndex(s.H[p].n), p)
  {
    hide Entries, EntersFront;
    SoundLists(s);
    SoundLists(s1);
    var l := FastIndex(s.H[p].n);
    FrontEnters(s.m, s.H, s1.H, p, l, RankBehind(s.m, s.H, l, Cell(l)));
  }

  /** The arena takes block `p` back: a small block becomes the first entry of its fastbin and nothing else
      changes, and any other is merged into the bins or top. */
  ghost predicate ArenaTakes(answers: nat -> Answer, a0: Snapshot, a1: Snapshot, p: int)
    requires p in a0.s.H
  {
    var size := a0.s.H[p].n;
    if size <= MAX_FAST then
      && a1 == Snapshot(a0.s.(m := a1.s.m, H := a1.s.H), true, a0.books)
      && p in a1.s.H && a1.s.H == a0.s.H[p := a1.s.H[p]] && a1.s.H[p].n == size && EntersFront(a0.s.H, a1.s.H, FastIndex(size), p)
    else
      Recycles(answers, a0, a1, p)
  }

  /** The k bytes from `r` on were given back to the arena: as the first entry of their fastbin, or to the bins
      or top. */
  ghost predicate GivenBack(H: Heap, s: State, r: int, k: int) {
    if k <= MAX_FAST then
      r in s.H && s.H[r].n == k && EntersFront(H, s.H, FastIndex(k), r)
    else
      forall a {:trigger Recycled(s.H, s.top, a)} :: r <= a < r + k ==> Recycled(s.H, s.top, a)
  }

  lemma TakenBack(answers: nat -> Answer, a0: Snapshot, a1: Snapshot, p: int)
    requires p in a0.s.H && ArenaTakes(answers, a0, a1, p)
    ensures GivenBack(a0.s.H, a1.s, p, a0.s.H[p].n)
  {
    hide EntersFront, Recycled, TrimmedFor, Lands, FastSub, FastEmpty;
  }

  /** It makes no difference what happened before to chunks that are on no list. */
  lemma GivenLater(s0: State, s1: State, s2: State, r: int, k: int)
    requires Sound(s0) && Sound(s1) && SameListed(s0.H, s1.H) && GivenBack(s1.H, s2, r, k)
    ensures GivenBack(s0.H, s2, r, k)
  {
    hide Entries, Recycled, Sound, SameListed;
    SoundLists(s0);
    SoundLists(s1);
    forall l ensures Entries(s1.H, l) == Entries(s0.H, l) {
      EntriesSame(s0.H, s1.H, l);
    }
  }

  /** `_int_free_chunk` on an arena chunk: a small block becomes the first of its fastbin, any other is
      merged into the bins or top. */
  method IntFreeChunk(av: MallocState, p: int, size: int)
    requires av.Valid() && p in LiveOf(av.H) && size == av.H[p].n
    modifies av`m, av`H, av`top, av`binmap, av`haveFastchunks, av`brk, av`calls, av`systemMem
    ensures av.Valid() && SameCached(old(av.H), av.H) && SameFences(old(av.H), av.H) && av.systemMem <= old(av.systemMem) && av.top <= old(av.top)
    ensures LiveOf(av.H) == old(LiveOf(av.H)) - {p} && Kept(old(av.m), av.m, LiveOf(av.H))
    ensures av.systemMem < old(av.systemMem) ==> av.m.Size(av.top) + (old(av.systemMem) - av.systemMem) >= TRIM_THRESHOLD
    ensures ArenaTakes(av.answers, old(Snap(av)), Snap(av), p)
  {
    hide Sound, Kept, Recycles, TrimDone, TrimOffer, EntersFront, Mem.Size, FastEmpty;
    ghost var s0 := av.S();
    BehindFacts(s0, p);
    if size <= MAX_FAST {
      if av.m.Head(p + size) <= CHUNK_HDR_SZ || av.m.Size(p + size) >= av.systemMem {
        assert false; // free(): invalid next size (fast)
      }
      av.haveFastchunks := true;
      var idx := FastIndex(size);
      var oldHead := av.m.e(Cell(idx));
      FastPutSound(s0, p);
      if oldHead == p {
        assert false; // double free or corruption (fasttop)
      }
      av.m := av.m.SetFd(p, Mask(p + 16, oldHead));
      av.m := Mem(Put(av.m.e, Cell(idx), p), av.m.o);
      av.H := FastPutHeap(s0, p, idx);
      FastEnters(s0, av.S(), p);
      TopSizes(s0);
      TopSizes(av.S());
      if oldHead != NULL && FastIndex(s0.m.Size(oldHead)) != idx {
        assert false; // invalid fastbin entry (free)
      }
    } else {
      FreeMergeChunk(av, p, size);
    }
  }
}
