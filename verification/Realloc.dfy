/** `_int_realloc`: resizing a block in place where possible, otherwise allocate, copy and free. */
module Realloc {
  import opened Sizes
  import opened Memory
  import opened Heap
  import opened RingProofs
  import opened Steps
  import opened ListingProofs
  import opened Arena
  import opened Free
  import opened Unlink
  import opened Consolidate
  import opened System
  import opened FreeChunk
  import opened ExactFit
  import opened Unsorted
  import opened Fit
  import opened Malloc
  import opened Resize

  /** The user words of block `p'` up to offset k hold what those of block `p` held. */
  ghost predicate Copied(m: Mem, m': Mem, p: int, p': int, k: int) {
    && (forall a {:trigger m'.e(a)} :: p' + 16 <= a <= p' + k ==> m'.e(a) == m.e(a - p' + p))
    && (forall a {:trigger m'.o(a)} :: p' + 16 <= a < p' + k ==> m'.o(a) == m.o(a - p' + p))
  }

  /** Block `p` has become block `p'`: of at least nb bytes and less than MINSIZE more, with the old
      contents as far as they fit, and every other block as it was. */
  ghost predicate Resized(s: State, s': State, p: int, p': int, nb: int) {
    var L, L' := LiveOf(s.H), LiveOf(s'.H);
    && p in L && p' in L' && (p' == p || p' !in L) && p' % 16 == 0
    && L' == (L - {p})[p' := L'[p']] && nb <= L'[p'] < nb + MINSIZE
    && Kept(s.m, s'.m, L - {p}) && Copied(s.m, s'.m, p, p', Min(L[p], L'[p']))
  }

  lemma InPlace(s: State, s': State, p: int, n': int, nb: int)
    requires Kept(s.m, s'.m, LiveOf(s.H) - {p}) && p in LiveOf(s.H) && LiveOf(s'.H) == LiveOf(s.H)[p := n']
    requires SameUser(s.m, s'.m, p, Min(LiveOf(s.H)[p], n')) && nb <= n' < nb + MINSIZE && p % 16 == 0
    ensures Resized(s, s', p, p, nb)
  {
    assert LiveOf(s'.H) == (LiveOf(s.H) - {p})[p := n'];
  }

  /** What is kept of a block is kept of its first part. */
  lemma KeptShrunk(m: Mem, m': Mem, L: map<int, int>, p: int, n: int)
    requires p in L && Kept(m, m', L) && n <= L[p]
    ensures SameUser(m, m', p, n) && Kept(m, m', L - {p})
  {
    assert SameUser(m, m', p, L[p]);
    KeptSub(m, m', L, L - {p});
  }

  lemma UserTrans(m0: Mem, m1: Mem, m2: Mem, p: int, n: int)
    requires SameUser(m0, m1, p, n) && SameUser(m1, m2, p, n)
    ensures SameUser(m0, m2, p, n)
  {}

  /** The stores of the tail when a remainder is split off. */
  function TailWords(m: Mem, p: int, newsize: int, nb: int): Mem {
    SetHeadSize(m, p, nb).SetHead(p + nb, newsize - nb + 1).SetPrevInuse(p + newsize)
  }

  lemma TailCommutes(s: State, p: int, n: int, newsize: int, nb: int)
    requires Stretch(s, p, n, newsize) && nb % 16 == 0 && nb >= MINSIZE && newsize - nb >= MINSIZE && newsize % 16 == 0
    ensures var m1, m2 := SplitLiveWords(StretchWords(s.m, p, newsize), p, newsize, nb), TailWords(s.m, p, newsize, nb);
            forall a {:trigger m2.e(a)} {:trigger m2.o(a)} :: m2.e(a) == m1.e(a) && m2.o(a) == m1.o(a)
  {
    hide Sound;
    LiveHead(s, p);
    WordDecodes(newsize + s.m.Head(p) % 8, newsize);
  }

  lemma StretchSizes(s: State, p: int, n: int, newsize: int)
    requires Stretch(s, p, n, newsize)
    ensures newsize % 16 == 0 && n % 16 == 0 && newsize >= n >= MINSIZE && p % 16 == 0
  {
    hide Links, Marks, Slots, Fresh;
    assert Placed(s.H, s.base, s.top, p);
    assert newsize != n ==> Placed(s.H, s.base, s.top, p + n);
  }

  /** Splitting the stretched block in two. */
  lemma TailSound(s: State, p: int, n: int, newsize: int, nb: int)
    requires Stretch(s, p, n, newsize) && nb % 16 == 0 && nb >= MINSIZE && newsize - nb >= MINSIZE && ChainHead(s.H, NULL)
    ensures p in s.H && (newsize != n ==> p + n in s.H)
    ensures var H1 := StretchHeap(s.H, p, n, newsize); p in H1 && H1[p].n == newsize
    ensures var H' := SplitLiveHeap(StretchHeap(s.H, p, n, newsize), p, nb); var m' := TailWords(s.m, p, newsize, nb);
            && Sound(s.(m := m', H := H')) && Quiet(H') && LiveOf(H') == LiveOf(s.H)[p := nb][p + nb := newsize - nb]
            && p + nb !in LiveOf(s.H) && p in LiveOf(s.H) && LiveOf(s.H)[p] == n && m'.Size(p + nb) == newsize - nb
            && Kept(s.m, m', LiveOf(s.H) - {p}) && SameUser(s.m, m', p, Min(n, nb))
            && SameListed(s.H, H') && (FastEmpty(s.H, NFASTBINS) ==> FastEmpty(H', NFASTBINS))
  {
    hide Sound, Kept, SplitLiveHeap, SplitLiveWords, SameUser, FastEmpty;
    StretchSizes(s, p, n, newsize);
    StretchSound(s, p, n, newsize);
    var s1 := s.(m := StretchWords(s.m, p, newsize), H := StretchHeap(s.H, p, n, newsize));
    SplitLiveSound(s1, p, nb);
    var s2 := s1.(m := SplitLiveWords(s1.m, p, newsize, nb), H := SplitLiveHeap(s1.H, p, nb));
    var m' := TailWords(s.m, p, newsize, nb);
    TailCommutes(s, p, n, newsize, nb);
    WordsSound(s2, m');
    TailKept(s.m, s1.m, s2.m, m', s.H, s1.H, s2.H, p, n, newsize, nb);
    TailQuiet(s.H, s1.H, s2.H);
    TailSize(s2.m, m', p + nb);
  }

  lemma TailSize(m: Mem, m': Mem, r: int)
    requires m'.o(r) == m.o(r)
    ensures m'.Size(r) == m.Size(r)
  {}

  lemma TailQuiet(H: Heap, H1: Heap, H2: Heap)
    requires ChainHead(H, NULL) && SameListed(H, H1) && SameListed(H1, H2) && NoRaw(H2)
    ensures Quiet(H2) && SameListed(H, H2) && (FastEmpty(H, NFASTBINS) ==> FastEmpty(H2, NFASTBINS))
  {
    hide FastEmpty;
    SameListedTrans(H, H1, H2);
    ListedEmpty(H, H2);
  }

  lemma TailKept(m0: Mem, m1: Mem, m2: Mem, m3: Mem, H0: Heap, H1: Heap, H2: Heap, p: int, n: int, newsize: int, nb: int)
    requires p in LiveOf(H0) && LiveOf(H0)[p] == n && LiveOf(H1) == LiveOf(H0)[p := newsize] && newsize >= n
    requires LiveOf(H2) == LiveOf(H1)[p := nb][p + nb := newsize - nb] && p + nb !in LiveOf(H1) && nb > 0
    requires Kept(m0, m1, LiveOf(H0)) && Kept(m1, m2, LiveOf(H1)[p := nb]) && Kept(m2, m3, LiveOf(H2))
    ensures Kept(m0, m3, LiveOf(H0) - {p}) && SameUser(m0, m3, p, Min(n, nb))
  {
    hide LiveOf, Kept, SameUser;
    var L0, L := LiveOf(H0), LiveOf(H0) - {p};
    KeptShrunk(m0, m1, L0, p, Min(n, nb));
    var L1 := LiveOf(H1)[p := nb];
    KeptShrunk(m1, m2, L1, p, Min(n, nb));
    KeptSub(m1, m2, L1, L);
    KeptShrunk(m2, m3, LiveOf(H2), p, Min(n, nb));
    KeptSub(m2, m3, LiveOf(H2), L);
    KeptTrans(m0, m1, m2, L);
    KeptTrans(m0, m2, m3, L);
    UserTrans(m0, m1, m2, p, Min(n, nb));
    UserTrans(m0, m2, m3, p, Min(n, nb));
  }

  /** Block `newp` of n bytes has taken over what follows it, so that it has newsize bytes, no fewer than nb. */
  ghost predicate Tailing(av: MallocState, newp: int, n: int, newsize: int, nb: int)
    reads av
  {
    && Stretch(av.S(), newp, n, newsize) && ChainHead(av.H, NULL) && HEAP_MIN <= av.brk && av.sbrkBase + av.systemMem <= av.brk
    && (!av.haveFastchunks ==> FastEmpty(av.H, NFASTBINS)) && nb % 16 == 0 && MINSIZE <= nb <= newsize
  }

  /** Of a block of newsize bytes what a request of nb bytes leaves, if it makes a chunk, was given back to the
      arena. The cache is as it was. */
  ghost predicate CutBack(s: State, s': State, p: int, newsize: int, nb: int) {
    && p in LiveOf(s'.H) && LiveOf(s'.H)[p] == Fitted(newsize, nb) && SameCached(s.H, s'.H)
    && (newsize > Fitted(newsize, nb) ==> GivenBack(s.H, s', p + nb, newsize - nb))
  }

  lemma CutLater(s0: State, s1: State, s2: State, p: int, newsize: int, nb: int)
    requires Sound(s0) && Sound(s1) && SameListed(s0.H, s1.H) && CutBack(s1, s2, p, newsize, nb)
    ensures CutBack(s0, s2, p, newsize, nb)
  {
    hide Sound, GivenBack, SameListed, SameCached, LiveOf;
    CachedFrame(s0.H, s1.H);
    SameCachedTrans(s0.H, s1.H, s2.H);
    if newsize > Fitted(newsize, nb) {
      GivenLater(s0, s1, s2, p + nb, newsize - nb);
    }
  }

  /** The end of `_int_realloc`: write the new size and give back what is too much. */
  method ReallocTail(av: MallocState, newp: int, ghost n: int, newsize: int, nb: int)
    requires Tailing(av, newp, n, newsize, nb)
    modifies av`m, av`H, av`top, av`binmap, av`haveFastchunks, av`brk, av`calls, av`systemMem
    ensures av.Valid() && av.systemMem <= old(av.systemMem) && Resized(old(av.S()), av.S(), newp, newp, nb)
    ensures CutBack(old(av.S()), av.S(), newp, newsize, nb)
  {
    hide Sound, Kept, LiveOf, Quiet, Stretch, Resized, CutBack, FastEmpty;
    if newsize - nb < MINSIZE {
      KeepWhole(av, newp, n, newsize, nb);
    } else {
      SplitOff(av, newp, n, newsize, nb);
    }
  }

  /** Not enough extra to split off. */
  method KeepWhole(av: MallocState, newp: int, ghost n: int, newsize: int, ghost nb: int)
    requires Tailing(av, newp, n, newsize, nb) && newsize < nb + MINSIZE
    modifies av`m, av`H
    ensures av.Valid() && Resized(old(av.S()), av.S(), newp, newp, nb)
    ensures CutBack(old(av.S()), av.S(), newp, newsize, nb)
  {
    hide FastEmpty, SameListed, SameCached, Sound, Kept, LiveOf, Quiet;
    hide Stretch, StretchHeap, SameUser, Mem.SetHead, Mem.SetPrevInuse, SetHeadSize, Resized;
    ghost var s := av.S();
    StretchSizes(s, newp, n, newsize);
    StretchSound(s, newp, n, newsize);
    StretchLive(s, newp, n, newsize);
    av.m := SetHeadSize(av.m, newp, newsize);
    av.m := av.m.SetPrevInuse(newp + newsize);
    av.H := StretchHeap(s.H, newp, n, newsize);
    QuietListed(s.H, av.H);
    CachedFrame(s.H, av.H);
    KeptShrunk(s.m, av.m, LiveOf(s.H), newp, n);
    InPlace(s, av.S(), newp, newsize, nb);
  }

  /** Split off the remainder and mark it as in use. */
  method MarkRemainder(av: MallocState, newp: int, ghost n: int, newsize: int, nb: int)
    requires Tailing(av, newp, n, newsize, nb) && newsize - nb >= MINSIZE
    modifies av`m, av`H
    ensures av.Valid() && newp + nb in LiveOf(av.H) && newp + nb in av.H && av.H[newp + nb].n == newsize - nb == av.m.Size(newp + nb) && newp % 16 == 0
    ensures newp in old(LiveOf(av.H)) && old(LiveOf(av.H))[newp] == n && newp + nb !in old(LiveOf(av.H)) && SameListed(old(av.H), av.H)
    ensures LiveOf(av.H) == old(LiveOf(av.H))[newp := nb][newp + nb := newsize - nb]
    ensures Kept(old(av.m), av.m, old(LiveOf(av.H)) - {newp}) && SameUser(old(av.m), av.m, newp, Min(n, nb))
  {
    hide FastEmpty, SameListed, Sound, Kept, LiveOf, Quiet, Stretch, SplitLiveHeap;
    hide StretchHeap, SameUser, Mem.SetHead, Mem.SetPrevInuse, Mem.Size, SetHeadSize, ChainHead, Min;
    ghost var s := av.S();
    StretchSizes(s, newp, n, newsize);
    TailSound(s, newp, n, newsize, nb);
    var remainderSize := newsize - nb;
    var remainder := newp + nb;
    av.m := SetHeadSize(av.m, newp, nb);
    av.m := av.m.SetHead(remainder, remainderSize + 1);
    av.m := av.m.SetPrevInuse(remainder + remainderSize);
    av.H := SplitLiveHeap(StretchHeap(s.H, newp, n, newsize), newp, nb);
    RemainderLive(av.H, remainder, remainderSize);
  }

  /** Split off the remainder, and free it. */
  method SplitOff(av: MallocState, newp: int, ghost n: int, newsize: int, nb: int)
    requires Tailing(av, newp, n, newsize, nb) && newsize - nb >= MINSIZE
    modifies av`m, av`H, av`top, av`binmap, av`haveFastchunks, av`brk, av`calls, av`systemMem
    ensures av.Valid() && av.systemMem <= old(av.systemMem) && Resized(old(av.S()), av.S(), newp, newp, nb)
    ensures CutBack(old(av.S()), av.S(), newp, newsize, nb)
  {
    hide FastEmpty, SameListed, GivenBack, Sound, Kept, LiveOf, Quiet, Stretch;
    hide SameUser, Resized, SameCached, SameFences, ChainHead, Min, ArenaTakes, Mem.Size;
    ghost var s := av.S();
    StretchBase(s, newp, n, newsize);
    MarkRemainder(av, newp, n, newsize, nb);
    ghost var s1, a1 := av.S(), Snap(av);
    var remainder := newp + nb;
    IntFreeChunk(av, remainder, av.m.Size(remainder));
    RemainderFreed(s, s1, av.S(), newp, n, newsize, nb);
    TakenBack(av.answers, a1, Snap(av), remainder);
    RemainderCut(s1, av.S(), newp, newsize, nb);
    CutLater(s, s1, av.S(), newp, newsize, nb);
  }

  lemma StretchBase(s: State, p: int, n: int, newsize: int)
    requires Stretch(s, p, n, newsize)
    ensures Sound(s)
  {}

  lemma RemainderCut(s1: State, s2: State, p: int, newsize: int, nb: int)
    requires p in LiveOf(s1.H) && LiveOf(s1.H)[p] == nb && nb > 0 && LiveOf(s2.H) == LiveOf(s1.H) - {p + nb} && SameCached(s1.H, s2.H)
    requires newsize - nb >= MINSIZE && GivenBack(s1.H, s2, p + nb, newsize - nb)
    ensures CutBack(s1, s2, p, newsize, nb)
  {
    hide LiveOf, SameCached, GivenBack;
  }

  lemma StretchLive(s: State, p: int, n: int, newsize: int)
    requires Stretch(s, p, n, newsize)
    ensures p in LiveOf(s.H) && LiveOf(s.H)[p] == n
    ensures p in s.H && (newsize != n ==> p + n in s.H)
  {}

  lemma RemainderLive(H: Heap, r: int, n: int)
    requires r in LiveOf(H) && LiveOf(H)[r] == n
    ensures r in H && H[r].n == n
  {}

  lemma RemainderFreed(s: State, s1: State, s2: State, p: int, n: int, newsize: int, nb: int)
    requires p in LiveOf(s.H) && LiveOf(s.H)[p] == n && LiveOf(s1.H) == LiveOf(s.H)[p := nb][p + nb := newsize - nb]
    requires LiveOf(s2.H) == LiveOf(s1.H) - {p + nb} && p + nb !in LiveOf(s.H) && nb >= MINSIZE && p % 16 == 0
    requires Kept(s.m, s1.m, LiveOf(s.H) - {p}) && SameUser(s.m, s1.m, p, Min(n, nb)) && Kept(s1.m, s2.m, LiveOf(s2.H))
    ensures Resized(s, s2, p, p, nb)
  {
    hide LiveOf, Kept, SameUser, Resized;
    var L := LiveOf(s.H) - {p};
    assert LiveOf(s2.H) == LiveOf(s.H)[p := nb];
    KeptShrunk(s1.m, s2.m, LiveOf(s2.H), p, Min(n, nb));
    KeptSub(s1.m, s2.m, LiveOf(s2.H), L);
    KeptTrans(s.m, s1.m, s2.m, L);
    UserTrans(s.m, s1.m, s2.m, p, Min(n, nb));
    InPlace(s, s2, p, nb, nb);
  }

  // ---------------------------------------------------------------- the cases

  /** The free chunk behind the block was unlinked. */
  lemma AbsorbStretch(s: State, s1: State, p: int, q: int)
    requires Sound(s) && Quiet(s.H) && p in LiveOf(s.H) && q == p + LiveOf(s.H)[p] && q in s.H && s.H[q].st.Binned?
    requires Sound(s1) && s1.H == s.H[q := Chunk(s.H[q].n, Raw)]
    ensures Stretch(s1, p, s.H[p].n, s.H[p].n + s.H[q].n) && ChainHead(s1.H, NULL)
  {
    hide Sound;
    BinnedLarge(s, q);
    forall x ensures !InList(s1.H, x, DETACHED) {
      assert !InList(s.H, x, DETACHED);
    }
  }

  lemma BinnedLarge(s: State, q: int)
    requires Sound(s) && q in s.H && s.H[q].st.Binned?
    ensures s.H[q].n >= MINSIZE
  {
    hide Links, Marks, Slots, Fresh;
    assert Placed(s.H, s.base, s.top, q);
  }

  /** The new block happens to lie right behind the old one: take it over. */
  lemma JoinStretch(s: State, p: int, q: int)
    requires Sound(s) && Quiet(s.H) && p in LiveOf(s.H) && q in LiveOf(s.H) && q == p + LiveOf(s.H)[p]
    ensures var s1 := s.(H := s.H[q := Chunk(s.H[q].n, Raw)]);
            && Stretch(s1, p, s.H[p].n, s.H[p].n + s.H[q].n) && ChainHead(s1.H, NULL) && LiveOf(s1.H) == LiveOf(s.H) - {q} && Sound(s1)
  {
    hide Links;
    var H1 := s.H[q := Chunk(s.H[q].n, Raw)];
    LiveHead(s, p);
    LiveHead(s, q);
    assert Placed(s.H, s.base, s.top, q);
    TakeStep(s.m, s.H, s.base, s.top, q);
    RestFrame(s.H, H1, s.binmap, s.slots);
    forall x ensures !InList(H1, x, DETACHED) {
      assert !InList(s.H, x, DETACHED);
    }
  }

  /** What the in-use test on the chunk behind the block reads. */
  lemma NextUse(s: State, p: int)
    requires Sound(s) && Quiet(s.H) && p in LiveOf(s.H) && p + LiveOf(s.H)[p] != s.top
    ensures var q := p + LiveOf(s.H)[p];
            q in s.H && (s.m.PrevInuse(q + s.m.Size(q)) <==> !s.H[q].st.Binned?) && s.m.Size(q) == s.H[q].n
  {
    hide Links, Marks, Slots, Fresh;
    LiveHead(s, p);
    var q := p + LiveOf(s.H)[p];
    NextFacts(s, q);
  }

  /** What `_int_realloc` checks first. */
  lemma ReallocGuards(s: State, p: int)
    requires Sound(s) && Quiet(s.H) && p in LiveOf(s.H)
    ensures var n := LiveOf(s.H)[p]; var next := p + n;
            && p in s.H && n == s.H[p].n && s.m.Head(p) > CHUNK_HDR_SZ && n < s.systemMem && s.m.Size(p) == n && n % 16 == 0 && n >= MINSIZE
            && s.m.Head(next) > CHUNK_HDR_SZ && s.m.Size(next) < s.systemMem && p % 16 == 0 && s.top != Hdr(UNSORTED) && p >= HEAP_MIN
  {
    hide Sound;
    BehindFacts(s, p);
    LiveHead(s, p);
  }

  /** `memcpy` of the usable bytes of a chunk of size n. */
  function CopyWords(m: Mem, dst: int, src: int, n: int): Mem {
    Mem(a => if dst + 16 <= a <= dst + n then m.e(a - dst + src) else m.e(a),
        a => if dst + 16 <= a < dst + n then m.o(a - dst + src) else m.o(a))
  }

  /** The block that was allocated has taken the place of the old one. If it lies right behind that, the two were
      joined and cut to size; otherwise the old block was given back to the arena. The cache is as the
      allocation left it. */
  ghost predicate Replaced(s1: State, s': State, oldp: int, oldsize: int, newp: int, nb: int) {
    && newp in LiveOf(s1.H)
    && (if newp == oldp + oldsize then
          CutBack(s1, s', oldp, oldsize + LiveOf(s1.H)[newp], nb)
        else
          && newp in LiveOf(s'.H) && LiveOf(s'.H)[newp] == LiveOf(s1.H)[newp]
          && SameCached(s1.H, s'.H) && GivenBack(s1.H, s', oldp, oldsize))
  }

  /** Allocate, copy and free, unless the new block lies right behind the old one. NULL exactly if the inner
      request is too large or fails. */
  method ReallocMove(av: MallocState, oldp: int, oldsize: int, nb: int) returns (mem: int, ghost r: Request)
    requires av.Settled() && oldp in LiveOf(av.H) && oldsize == LiveOf(av.H)[oldp] < nb && nb % 16 == 0
    modifies av
    ensures old(av.Recorded()) ==> av.Recorded()
    ensures av.Settled() && |av.numSlots| == |old(av.numSlots)|
    ensures mem == NULL ==> Unsupplied(old(av.S()), av.S())
    ensures mem != NULL ==> mem >= HEAP_MIN && Resized(old(av.S()), av.S(), oldp, mem - 16, nb)
    ensures Moves(ConfigOf(av), old(Snap(av)), Snap(av), oldp, oldsize, nb, mem, r)
  {
    hide Sound, Kept, LiveOf, Quiet, Stretch, Supplied, Unsupplied, Resized;
    hide SameUser, Moved, Answered, Failed, Delivered, Replaced, FastEmpty, Mem.Size;
    ghost var s := av.S();
    ReallocGuards(s, oldp);
    Request2SizeInverse(nb);
    mem, r := IntMalloc(av, nb - 15);
    if mem == NULL {
      return;
    }
    var newp := mem - 16;
    ghost var s1 := av.S();
    MovedFacts(s, s1, oldp, newp, nb);
    if newp == oldp + oldsize {
      TakeOver(av, s, oldp, oldsize, newp, nb);
      mem := oldp + 16;
    } else {
      CopyAndFree(av, s, oldp, oldsize, newp, nb);
    }
  }

  /** What comes of it when there is no room for the block where it is. */
  ghost predicate Moves(cfg: Config, a0: Snapshot, a1: Snapshot, oldp: int, oldsize: int, nb: int, mem: int, r: Request) {
    if nb - 15 > PTRDIFF_MAX then
      mem == NULL && a1 == a0
    else
      && r.at == a0 && Answered(cfg, r, nb) && (mem == NULL <==> Failed(cfg, r, nb))
      && (if mem == NULL then a1 == r.after
          else mem == (if r.p == oldp + oldsize then oldp + 16 else r.p + 16) && Replaced(r.after.s, a1.s, oldp, oldsize, r.p, nb))
  }

  /** The new block was placed right behind the old one. */
  method TakeOver(av: MallocState, ghost s: State, oldp: int, oldsize: int, newp: int, nb: int)
    requires av.Settled() && Moved(s, av.S(), oldp, oldsize, newp, nb) && newp == oldp + oldsize
    modifies av
    ensures old(av.Recorded()) ==> av.Recorded()
    ensures av.Settled() && av.numSlots == old(av.numSlots) && Resized(s, av.S(), oldp, oldp, nb)
    ensures Replaced(old(av.S()), av.S(), oldp, oldsize, newp, nb)
  {
    hide Sound, Kept, LiveOf, Quiet, Stretch, Resized, SameUser, CutBack, FastEmpty, SameListed, Mem.Size;
    ghost var s1 := av.S();
    ReallocGuards(s1, oldp);
    MovedSizes(s, s1, oldp, oldsize, newp, nb);
    var newsize := av.m.Size(newp) + oldsize;
    JoinStretch(s1, oldp, newp);
    av.H := av.H[newp := Chunk(s1.H[newp].n, Raw)];
    ghost var s2 := av.S();
    UnlistedSame(s1.H, s2.H, newp);
    ReallocTail(av, oldp, oldsize, newsize, nb);
    JoinResized(s, s1, s2, av.S(), oldp, nb);
    CutLater(s1, s2, av.S(), oldp, newsize, nb);
  }

  lemma MovedSizes(s: State, s1: State, oldp: int, oldsize: int, newp: int, nb: int)
    requires Moved(s, s1, oldp, oldsize, newp, nb)
    ensures newp in s1.H && s1.H[newp].st.Live? && newp in LiveOf(s1.H) && s1.m.Size(newp) == s1.H[newp].n == LiveOf(s1.H)[newp]
  {}

  /** Copy the usable bytes of the old block to the new one and free the old one. */
  method CopyAndFree(av: MallocState, ghost s: State, oldp: int, oldsize: int, newp: int, nb: int)
    requires av.Settled() && Moved(s, av.S(), oldp, oldsize, newp, nb) && newp != oldp + oldsize
    modifies av
    ensures old(av.Recorded()) ==> av.Recorded()
    ensures av.Settled() && av.numSlots == old(av.numSlots) && Resized(s, av.S(), oldp, newp, nb)
    ensures Replaced(old(av.S()), av.S(), oldp, oldsize, newp, nb)
  {
    hide Sound, Kept, LiveOf, Quiet, Resized, SameUser, CopyWords, GivenBack, ArenaTakes, SameCached, SameFences, FastEmpty, Mem.Size;
    ghost var s1 := av.S();
    MovedSizes(s, s1, oldp, oldsize, newp, nb);
    CopySound(s1, newp, oldp, oldsize);
    av.m := CopyWords(av.m, newp, oldp, oldsize);
    ghost var s2, a2 := av.S(), Snap(av);
    ReallocGuards(s2, oldp);
    IntFreeChunk(av, oldp, av.m.Size(oldp));
    MoveResized(s, s1, s2, av.S(), oldp, newp, nb);
    TakenBack(av.answers, a2, Snap(av), oldp);
  }

  /** The new block was allocated. */
  ghost predicate Moved(s: State, s1: State, oldp: int, oldsize: int, newp: int, nb: int) {
    && oldp in LiveOf(s.H) && oldsize == LiveOf(s.H)[oldp] < nb && nb % 16 == 0
    && oldp in LiveOf(s1.H) && newp in LiveOf(s1.H) && LiveOf(s1.H)[oldp] == LiveOf(s.H)[oldp] && oldp != newp
    && newp in s1.H && oldp in s1.H && s1.H[newp].n == LiveOf(s1.H)[newp] && nb <= LiveOf(s1.H)[newp] < nb + MINSIZE
    && s1.m.Size(newp) == s1.H[newp].n && s1.H[oldp].n == LiveOf(s1.H)[oldp]
    && LiveOf(s1.H) == LiveOf(s.H)[newp := LiveOf(s1.H)[newp]] && newp !in LiveOf(s.H) && newp % 16 == 0
    && Kept(s.m, s1.m, LiveOf(s.H))
  }

  lemma MovedFacts(s: State, s1: State, oldp: int, newp: int, nb: int)
    requires Supplied(s, s1, newp, nb) && oldp in LiveOf(s.H) && Sound(s1) && Quiet(s1.H) && LiveOf(s.H)[oldp] < nb && nb % 16 == 0
    ensures Moved(s, s1, oldp, LiveOf(s.H)[oldp], newp, nb)
  {
    ReallocGuards(s1, newp);
  }

  lemma JoinResized(s: State, s1: State, s2: State, s3: State, p: int, nb: int)
    requires p in LiveOf(s.H)
    requires var q := p + LiveOf(s.H)[p];
             q !in LiveOf(s.H) && q != p && q in LiveOf(s1.H) && LiveOf(s1.H) == LiveOf(s.H)[q := LiveOf(s1.H)[q]] && LiveOf(s2.H) == LiveOf(s1.H) - {q}
    requires Kept(s.m, s1.m, LiveOf(s.H)) && s2.m == s1.m && Resized(s2, s3, p, p, nb)
    ensures Resized(s, s3, p, p, nb)
  {
    hide LiveOf, Kept, SameUser;
    assert LiveOf(s2.H) == LiveOf(s.H);
    var L := LiveOf(s.H) - {p};
    KeptShrunk(s.m, s1.m, LiveOf(s.H), p, LiveOf(s.H)[p]);
    KeptTrans(s.m, s1.m, s3.m, L);
    CopiedAfter(s.m, s1.m, s3.m, p, LiveOf(s.H)[p], LiveOf(s3.H)[p]);
  }

  lemma CopiedAfter(m0: Mem, m1: Mem, m2: Mem, p: int, n: int, n': int)
    requires SameUser(m0, m1, p, n) && Copied(m1, m2, p, p, Min(n, n'))
    ensures Copied(m0, m2, p, p, Min(n, n'))
  {}

  lemma CopySound(s: State, dst: int, src: int, n: int)
    requires Sound(s) && dst in LiveOf(s.H) && src in LiveOf(s.H) && n == LiveOf(s.H)[src] <= LiveOf(s.H)[dst] && src != dst
    ensures var m' := CopyWords(s.m, dst, src, n);
            Sound(s.(m := m')) && Kept(s.m, m', LiveOf(s.H) - {dst}) && Copied(s.m, m', src, dst, n)
  {
    hide Sound, CopyWords, WroteIn, Copied, LiveOf;
    CopyWrote(s.m, dst, src, n, LiveOf(s.H)[dst]);
    WriteSound(s, CopyWords(s.m, dst, src, n), dst);
  }

  lemma CopyWrote(m: Mem, dst: int, src: int, n: int, k: int)
    requires n <= k
    ensures WroteIn(m, CopyWords(m, dst, src, n), dst, k)
    ensures Copied(m, CopyWords(m, dst, src, n), src, dst, n)
  {
    CopyWroteIn(m, dst, src, n, k);
    CopyCopied(m, dst, src, n);
  }

  lemma CopyWroteIn(m: Mem, dst: int, src: int, n: int, k: int)
    requires n <= k
    ensures WroteIn(m, CopyWords(m, dst, src, n), dst, k)
  {}

  lemma CopyCopied(m: Mem, dst: int, src: int, n: int)
    ensures Copied(m, CopyWords(m, dst, src, n), src, dst, n)
  {
    hide CopyWords;
    var m' := CopyWords(m, dst, src, n);
    forall a | dst + 16 <= a <= dst + n ensures m'.e(a) == m.e(a - dst + src) {
      CopiedWord(m, dst, src, n, a);
    }
    forall a | dst + 16 <= a < dst + n ensures m'.o(a) == m.o(a - dst + src) {
      CopiedWord(m, dst, src, n, a);
    }
  }

  lemma CopiedWord(m: Mem, dst: int, src: int, n: int, a: int)
    ensures dst + 16 <= a <= dst + n ==> CopyWords(m, dst, src, n).e(a) == m.e(a - dst + src)
    ensures dst + 16 <= a < dst + n ==> CopyWords(m, dst, src, n).o(a) == m.o(a - dst + src)
  {}

  lemma MoveResized(s: State, s1: State, s2: State, s3: State, p: int, p': int, nb: int)
    requires p in LiveOf(s.H) && p' !in LiveOf(s.H) && p' in LiveOf(s1.H) && LiveOf(s1.H) == LiveOf(s.H)[p' := LiveOf(s1.H)[p']] && s2.H == s1.H
    requires nb <= LiveOf(s1.H)[p'] < nb + MINSIZE && p' % 16 == 0 && LiveOf(s.H)[p] < nb
    requires Kept(s.m, s1.m, LiveOf(s.H)) && Kept(s1.m, s2.m, LiveOf(s1.H) - {p'}) && Copied(s1.m, s2.m, p, p', LiveOf(s.H)[p])
    requires LiveOf(s3.H) == LiveOf(s2.H) - {p} && Kept(s2.m, s3.m, LiveOf(s3.H))
    ensures Resized(s, s3, p, p', nb)
  {
    hide LiveOf, Kept, SameUser;
    var L, n := LiveOf(s.H) - {p}, LiveOf(s.H)[p];
    assert LiveOf(s3.H) == L[p' := LiveOf(s1.H)[p']];
    KeptShrunk(s.m, s1.m, LiveOf(s.H), p, n);
    KeptSub(s1.m, s2.m, LiveOf(s1.H) - {p'}, L);
    KeptSub(s2.m, s3.m, LiveOf(s3.H), L);
    KeptTrans(s.m, s1.m, s2.m, L);
    KeptTrans(s.m, s2.m, s3.m, L);
    KeptShrunk(s2.m, s3.m, LiveOf(s3.H), p', n);
    CopiedThrough(s.m, s1.m, s2.m, s3.m, p, p', n);
  }

  lemma CopiedThrough(m0: Mem, m1: Mem, m2: Mem, m3: Mem, p: int, p': int, n: int)
    requires SameUser(m0, m1, p, n) && Copied(m1, m2, p, p', n) && SameUser(m2, m3, p', n)
    ensures Copied(m0, m3, p, p', n)
  {
    forall a | p' + 16 <= a <= p' + n ensures m3.e(a) == m0.e(a - p' + p) {
      assert m2.e(a) == m1.e(a - p' + p);
    }
    forall a | p' + 16 <= a < p' + n ensures m3.o(a) == m0.o(a - p' + p) {
      assert m2.o(a) == m1.o(a - p' + p);
    }
  }

  // ---------------------------------------------------------------- _int_realloc

  /** The block is large enough, or it is together with the unused space behind it. */
  ghost predicate Room(s: State, p: int, nb: int)
    requires p in LiveOf(s.H)
  {
    var n := LiveOf(s.H)[p];
    var next := p + n;
    || n >= nb
    || (next == s.top && n + s.m.Size(s.top) >= nb + MINSIZE)
    || (next in s.H && s.H[next].st.Binned? && n + s.H[next].n >= nb)
  }

  lemma RoomCases(s: State, p: int, nb: int)
    requires Sound(s) && Quiet(s.H) && p in LiveOf(s.H)
    ensures var n := LiveOf(s.H)[p]; var next := p + n;
            && (Room(s, p, nb) <==>
                  || n >= nb
                  || (next == s.top && n + s.m.Size(next) >= nb + MINSIZE)
                  || (next != s.top && !s.m.PrevInuse(next + s.m.Size(next)) && n + s.m.Size(next) >= nb))
            && (next == s.top ==> next !in s.H) && (next != s.top ==> next in s.H && s.m.Size(next) == s.H[next].n)
  {
    var next := p + LiveOf(s.H)[p];
    if next == s.top {
      TopSizeFacts(s);
      assert next in s.H ==> Placed(s.H, s.base, s.top, next);
    } else {
      NextUse(s, p);
    }
  }

  /** How many bytes there are where the block is, with a free chunk behind it. */
  ghost function Reach(s: State, p: int, nb: int): int
    requires p in LiveOf(s.H)
  {
    var n := LiveOf(s.H)[p];
    if n < nb && p + n in s.H then n + s.H[p + n].n else n
  }

  /** The block was resized where it is: at the expense of top, or with the free chunk behind it if it needs that,
      and cut to size. */
  ghost predicate Stays(s: State, s': State, p: int, nb: int)
    requires p in LiveOf(s.H)
  {
    var n := LiveOf(s.H)[p];
    if n < nb && p + n == s.top then
      s'.top == p + nb && p in LiveOf(s'.H) && LiveOf(s'.H)[p] == nb && SameListed(s.H, s'.H)
    else
      CutBack(s, s', p, Reach(s, p, nb), nb)
  }

  /** Resize the block `oldp` to nb bytes: in place exactly if there is room or the block allocated for it lies
      right behind it. NULL leaves everything live as it was. */
  method IntRealloc(av: MallocState, oldp: int, oldsize: int, nb: int) returns (mem: int, ghost r: Request)
    requires av.Settled() && oldp in LiveOf(av.H) && oldsize == LiveOf(av.H)[oldp] && nb % 16 == 0 && nb >= MINSIZE
    modifies av
    ensures old(av.Recorded()) ==> av.Recorded()
    ensures av.Settled() && |av.numSlots| == |old(av.numSlots)|
    ensures mem == NULL ==> Unsupplied(old(av.S()), av.S())
    ensures mem != NULL ==> mem >= HEAP_MIN && Resized(old(av.S()), av.S(), oldp, mem - 16, nb)
    ensures if old(Room(av.S(), oldp, nb)) then mem == oldp + 16 && Stays(old(av.S()), av.S(), oldp, nb)
            else Moves(ConfigOf(av), old(Snap(av)), Snap(av), oldp, oldsize, nb, mem, r)
  {
    hide Sound, Kept, LiveOf, Quiet, Stretch, Supplied, Unsupplied, Resized;
    hide SameUser, SplitLiveWords, Room, Moves, CutBack, FastEmpty, Mem.Size, SameListed;
    ghost var s := av.S();
    r := Idle(Snap(av));
    ReallocGuards(s, oldp);
    RoomCases(s, oldp, nb);
    if av.m.Head(oldp) <= CHUNK_HDR_SZ || oldsize >= av.systemMem || oldsize != av.m.Size(oldp) {
      assert false; // realloc(): invalid old size
    }
    var next := oldp + oldsize;
    var nextsize := av.m.Size(next);
    if av.m.Head(next) <= CHUNK_HDR_SZ || nextsize >= av.systemMem {
      assert false; // realloc(): invalid next size
    }
    if oldsize >= nb {
      PlainStretch(s, oldp);
      ReallocTail(av, oldp, oldsize, oldsize, nb);
      return oldp + 16, r;
    } else if next == av.top && oldsize + nextsize >= nb + MINSIZE {
      GrowIntoTop(av, oldp, oldsize, oldsize + nextsize, nb);
      return oldp + 16, r;
    } else if next != av.top && Unused(av, next) && oldsize + nextsize >= nb {
      NextUse(s, oldp);
      UnlinkChunk(av, next);
      ghost var s1 := av.S();
      AbsorbStretch(s, s1, oldp, next);
      ListedEmpty(s.H, s1.H);
      ReallocTail(av, oldp, oldsize, oldsize + nextsize, nb);
      AbsorbResized(s, s1, av.S(), oldp, nb);
      CutLater(s, s1, av.S(), oldp, oldsize + nextsize, nb);
      return oldp + 16, r;
    } else {
      mem, r := ReallocMove(av, oldp, oldsize, nb);
    }
  }

  /** `!inuse(next)`. */
  predicate Unused(av: MallocState, next: int)
    reads av
  {
    !av.m.PrevInuse(next + av.m.Size(next))
  }

  lemma PlainStretch(s: State, p: int)
    requires Sound(s) && Quiet(s.H) && p in LiveOf(s.H)
    ensures Stretch(s, p, LiveOf(s.H)[p], LiveOf(s.H)[p]) && ChainHead(s.H, NULL)
  {}

  lemma AbsorbResized(s: State, s1: State, s2: State, p: int, nb: int)
    requires p in LiveOf(s.H) && LiveOf(s1.H) == LiveOf(s.H) && Kept(s.m, s1.m, LiveOf(s.H)) && Resized(s1, s2, p, p, nb)
    ensures Resized(s, s2, p, p, nb)
  {
    hide LiveOf, Kept, SameUser;
    KeptShrunk(s.m, s1.m, LiveOf(s.H), p, LiveOf(s.H)[p]);
    KeptTrans(s.m, s1.m, s2.m, LiveOf(s.H) - {p});
    CopiedAfter(s.m, s1.m, s2.m, p, LiveOf(s.H)[p], LiveOf(s2.H)[p]);
  }

  /** The block borders top and top is large enough. */
  method GrowIntoTop(av: MallocState, oldp: int, ghost oldsize: int, newsize: int, nb: int)
    requires av.Settled() && oldp in LiveOf(av.H) && oldsize == LiveOf(av.H)[oldp] < nb && nb % 16 == 0
    requires oldp + oldsize == av.top && newsize == oldsize + av.m.Size(av.top) >= nb + MINSIZE
    modifies av`m, av`H, av`top
    ensures av.Settled() && Resized(old(av.S()), av.S(), oldp, oldp, nb)
    ensures av.top == oldp + nb && oldp in LiveOf(av.H) && LiveOf(av.H)[oldp] == nb && SameListed(old(av.H), av.H)
  {
    hide Sound, Kept, LiveOf, Quiet, Resized, SameUser, Mem.SetHead, SetHeadSize, Topmost, NoRaw, SameListed, FastEmpty;
    ghost var s := av.S();
    ReallocGuards(s, oldp);
    GrowTopReady(s, oldp, nb);
    GrowTopSound(s, oldp, nb);
    av.m := SetHeadSize(av.m, oldp, nb);
    av.top := oldp + nb;
    av.m := av.m.SetHead(av.top, newsize - nb + 1);
    av.H := av.H[oldp := Chunk(nb, Live)];
    QuietFrame(s.H, av.H);
    KeptShrunk(s.m, av.m, LiveOf(s.H), oldp, oldsize);
    InPlace(s, av.S(), oldp, nb, nb);
  }

  lemma GrowTopReady(s: State, p: int, nb: int)
    requires Sound(s) && Quiet(s.H) && p in LiveOf(s.H) && p + LiveOf(s.H)[p] == s.top && nb % 16 == 0 && nb > LiveOf(s.H)[p]
    requires LiveOf(s.H)[p] + s.m.Size(s.top) >= nb + MINSIZE && s.sbrkBase + s.systemMem <= s.mark.at
    ensures Topmost(s, p, nb)
  {}
}
