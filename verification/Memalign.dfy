/** `_int_memalign`: an aligned block cut from a larger one, with both ends given back. */
module Memalign {
  import opened Sizes
  import opened Memory
  import opened Heap
  import opened RingProofs
  import opened Arena
  import opened Free
  import opened Consolidate
  import opened System
  import opened FreeChunk
  import opened Walk
  import opened ExactFit
  import opened Malloc
  import opened Resize
  import opened Realloc

  predicate IsPowerOf2(a: int) {
    a == 1 || (a > 1 && a % 2 == 0 && IsPowerOf2(a / 2))
  }

  lemma PowerMultiple(a: int)
    requires IsPowerOf2(a) && a >= MINSIZE
    ensures a % 16 == 0
  {
    assert IsPowerOf2(a / 2) && IsPowerOf2(a / 2 / 2) && IsPowerOf2(a / 2 / 2 / 2) && IsPowerOf2(a / 2 / 2 / 2 / 2);
  }

  /** Where the aligned chunk starts inside chunk `p`: the first aligned spot, or the one after it if
      the space in front of the first makes no chunk. For a power of two, masking with -alignment
      rounds down. */
  function AlignedChunk(p: int, alignment: int): int
    requires alignment > 0
  {
    var brk := AlignDown(p + 16 + alignment - 1, alignment) - 16;
    if brk - p < MINSIZE then brk + alignment else brk
  }

  lemma AlignDownFacts(x: int, a: int)
    requires a > 0
    ensures AlignDown(x, a) % a == 0 && x - a < AlignDown(x, a) <= x
  {
    var q := x / a;
    assert AlignDown(x, a) == q * a;
    MultipleOf(q, a);
  }

  lemma MultipleOf(q: int, a: int)
    requires a > 0
    ensures (q * a) % a == 0
  {
    if q * a != 0 {
      assert (q * a) / a == q by {
        DivOf(q, a);
      }
    }
  }

  lemma DivOf(q: int, a: int)
    requires a > 0
    ensures (q * a) / a == q
  {
    var d, r := (q * a) / a, (q * a) % a;
    assert q * a == d * a + r && 0 <= r < a;
    assert (q - d) * a == r;
    MultipleBound(q - d, a);
  }

  lemma MultipleBound(k: int, a: int)
    requires a > 0
    ensures k >= 1 ==> k * a >= a
    ensures k <= -1 ==> k * a <= -a
  {}

  lemma NextMultiple(x: int, a: int)
    requires a > 0 && x % a == 0
    ensures (x + a) % a == 0
  {
    var q := x / a;
    assert x + a == (q + 1) * a;
    MultipleOf(q + 1, a);
  }

  lemma SixteenDivides(x: int, a: int)
    requires a > 0 && x % a == 0 && a % 16 == 0
    ensures x % 16 == 0
  {
    var q, k := x / a, a / 16;
    assert x == q * (k * 16);
    assert x == (q * k) * 16;
  }

  /** A block padded for the worst case has room for an aligned chunk of nb bytes, with a leader that
      makes a chunk. */
  lemma AlignedFits(p: int, alignment: int, nb: int, size: int)
    requires IsPowerOf2(alignment) && alignment >= MINSIZE && p % 16 == 0 && nb % 16 == 0 && size >= nb + alignment + MINSIZE && size % 16 == 0
    ensures var newp := AlignedChunk(p, alignment);
            && (newp + 16) % alignment == 0 && newp % 16 == 0
            && MINSIZE <= newp - p <= alignment + MINSIZE - 1 && size - (newp - p) >= nb && (size - (newp - p)) % 16 == 0
  {
    hide AlignDown, IsPowerOf2;
    PowerMultiple(alignment);
    var x := AlignDown(p + 16 + alignment - 1, alignment);
    AlignDownFacts(p + 16 + alignment - 1, alignment);
    SixteenDivides(x, alignment);
    NextMultiple(x, alignment);
    SixteenDivides(x + alignment, alignment);
    SpotFits(p, alignment, nb, size, x);
  }

  lemma SpotFits(p: int, alignment: int, nb: int, size: int, x: int)
    requires p + 16 <= x < p + 16 + alignment && x % 16 == 0 && (x + alignment) % 16 == 0
    requires p % 16 == 0 && size >= nb + alignment + MINSIZE && size % 16 == 0
    ensures var newp := if x - 16 - p < MINSIZE then x - 16 + alignment else x - 16;
            && (newp + 16 == x || newp + 16 == x + alignment) && newp % 16 == 0 && (alignment >= MINSIZE ==> newp - p >= MINSIZE)
            && newp - p <= alignment + MINSIZE - 1 && size - (newp - p) > nb && (size - (newp - p)) % 16 == 0
  {}

  // ---------------------------------------------------------------- what stays free

  /** Free memory was only merged and moved: the cache and the fenceposts are as they were, nothing came to the
      fastbins, and no block in use is new or has grown. */
  ghost predicate Churned(s0: State, s1: State) {
    && SameCached(s0.H, s1.H) && SameFences(s0.H, s1.H) && FastSub(s0.H, s1.H) && s1.top <= s0.top && s1.base == s0.base
    && Shrunk(LiveOf(s0.H), LiveOf(s1.H))
  }

  ghost predicate Shrunk(L: map<int, int>, L': map<int, int>) {
    forall x {:trigger x in L'} :: x in L' ==> x in L && L'[x] <= L[x]
  }

  lemma ChurnedTrans(s0: State, s1: State, s2: State)
    requires Churned(s0, s1) && Churned(s1, s2)
    ensures Churned(s0, s2)
  {
    hide SameCached, SameFences, FastSub, LiveOf;
    SameCachedTrans(s0.H, s1.H, s2.H);
    SameFencesTrans(s0.H, s1.H, s2.H);
    FastSubTrans(s0.H, s1.H, s2.H);
  }

  /** What lies in a binned chunk or in top then still does. */
  lemma RecycledStays(s0: State, s1: State, a: int)
    requires Sound(s0) && Sound(s1) && Churned(s0, s1) && Quiet(s1.H) && Recycled(s0.H, s0.top, a)
    ensures Recycled(s1.H, s1.top, a)
  {
    hide Links, Marks, Slots, Fresh, TopOk;
    if a < s1.top {
      var d :| InStock(s0.H, d) && d <= a < d + s0.H[d].n;
      assert Placed(s0.H, s0.base, s0.top, d);
      var c := WalkFinds(s1.H, s1.base, s1.top, s1.base, a);
      ListsOk(s1, c);
      ChurnedUse(s0, s1, c);
      assert c != d ==> Apart(s0.H, c, d);
      assert InStock(s1.H, c);
    }
  }

  /** Unless it is binned, a chunk of the later heap is one of the earlier, on the same list or in use or a fencepost. */
  lemma ChurnedUse(s0: State, s1: State, c: int)
    requires Churned(s0, s1) && Quiet(s1.H) && c in s1.H && SingleOk(s1.H, c)
    ensures s1.H[c].st.Binned? || (c in s0.H && s1.H[c].n <= s0.H[c].n && !s0.H[c].st.Binned?)
  {
    match s1.H[c].st {
      case Live => assert c in LiveOf(s1.H);
      case Raw =>
      case Fence => assert IsFence(s1.H, c);
      case Gap => assert IsFence(s1.H, c);
      case Listed(l, r) => assert InList(s1.H, c, l);
      case Binned(b, r) =>
    }
  }

  /** All bytes from lo up to but not including hi are in the bins or in top. */
  ghost predicate Freeing(s: State, lo: int, hi: int) {
    forall a {:trigger Recycled(s.H, s.top, a)} :: lo <= a < hi ==> Recycled(s.H, s.top, a)
  }

  lemma FreeingStays(s0: State, s1: State, lo: int, hi: int)
    requires Sound(s0) && Sound(s1) && Churned(s0, s1) && Quiet(s1.H) && Freeing(s0, lo, hi)
    ensures Freeing(s1, lo, hi)
  {
    hide Sound, Churned, Quiet, Recycled;
    forall a | lo <= a < hi ensures Recycled(s1.H, s1.top, a) {
      RecycledStays(s0, s1, a);
    }
  }

  lemma FreeingFrom(answers: nat -> Answer, a0: Snapshot, a1: Snapshot, p: int)
    requires p in a0.s.H && Recycles(answers, a0, a1, p)
    ensures Freeing(a1.s, p, p + a0.s.H[p].n) && FastSub(a0.s.H, a1.s.H)
  {
    hide Recycled, TrimmedFor, Lands, FastSub, FastEmpty;
  }

  // ---------------------------------------------------------------- the leader

  /** Give back the space in front of the aligned chunk. */
  method GiveLeader(av: MallocState, p: int, newp: int)
    requires av.Valid() && p in LiveOf(av.H) && newp % 16 == 0 && p % 16 == 0 && newp - p >= MINSIZE && LiveOf(av.H)[p] - (newp - p) >= MINSIZE
    modifies av`m, av`H, av`top, av`binmap, av`haveFastchunks, av`brk, av`calls, av`systemMem
    ensures av.Valid() && av.systemMem <= old(av.systemMem) && SameCached(old(av.H), av.H) && Freeing(av.S(), p, newp)
    ensures newp !in old(LiveOf(av.H)) && LiveOf(av.H) == (old(LiveOf(av.H)) - {p})[newp := old(LiveOf(av.H))[p] - (newp - p)]
    ensures Kept(old(av.m), av.m, old(LiveOf(av.H)) - {p})
  {
    hide Sound, Kept, LiveOf, Quiet, SplitLiveHeap, SplitLiveWords, Mem.SetHead, Mem.SetPrevInuse, Mem.Size;
    hide SetHeadSize, SameCached, SameFences, SameListed, Recycles, Freeing, FastSub, FastEmpty, MergedSize;
    ghost var s := av.S();
    ReallocGuards(s, p);
    var leadsize := newp - p;
    var newsize := av.m.Size(p) - leadsize;
    LeaderSound(s, p, leadsize);
    av.m := av.m.SetHead(newp, newsize + 1);
    av.m := av.m.SetPrevInuse(newp + newsize);
    av.m := SetHeadSize(av.m, p, leadsize);
    av.H := SplitLiveHeap(s.H, p, leadsize);
    ghost var s1, a1 := av.S(), Snap(av);
    LeaderLive(s1.H, p, leadsize, newp);
    CachedFrame(s.H, s1.H);
    FreeMergeChunk(av, p, leadsize);
    LeaderFreed(s, s1, av.S(), p, newp);
    FreeingFrom(av.answers, a1, Snap(av), p);
    SameCachedTrans(s.H, s1.H, av.H);
  }

  /** The stores of the split, in source order. */
  function LeaderWords(m: Mem, p: int, n: int, lead: int): Mem {
    SetHeadSize(m.SetHead(p + lead, n - lead + 1).SetPrevInuse(p + lead + (n - lead)), p, lead)
  }

  lemma LeaderSound(s: State, p: int, lead: int)
    requires Sound(s) && Quiet(s.H) && p in LiveOf(s.H) && lead % 16 == 0 && lead >= MINSIZE && LiveOf(s.H)[p] - lead >= MINSIZE
    ensures var n := LiveOf(s.H)[p]; var m', H' := LeaderWords(s.m, p, n, lead), SplitLiveHeap(s.H, p, lead);
            && Sound(s.(m := m', H := H')) && Quiet(H') && p + lead !in LiveOf(s.H)
            && LiveOf(H') == LiveOf(s.H)[p := lead][p + lead := n - lead] && Kept(s.m, m', LiveOf(s.H) - {p})
            && SameListed(s.H, H') && (FastEmpty(s.H, NFASTBINS) ==> FastEmpty(H', NFASTBINS))
  {
    hide Sound, SplitLiveHeap, SplitLiveWords, Kept, FastEmpty;
    LiveIn(s.H, p);
    var n := s.H[p].n;
    var m1, m', H' := SplitLiveWords(s.m, p, n, lead), LeaderWords(s.m, p, n, lead), SplitLiveHeap(s.H, p, lead);
    SplitLiveSound(s, p, lead);
    LeaderCommutes(s, p, lead);
    WordsSound(s.(m := m1, H := H'), m');
    QuietFrame(s.H, H');
    LeaderKept(s.m, m1, m', s.H, H', p, lead, n);
  }

  lemma LiveIn(H: Heap, p: int)
    requires p in LiveOf(H)
    ensures p in H && H[p].st.Live? && H[p].n == LiveOf(H)[p]
  {}

  lemma LeaderKept(m: Mem, m1: Mem, m2: Mem, H: Heap, H': Heap, p: int, lead: int, n: int)
    requires p in LiveOf(H) && lead > 0 && LiveOf(H') == LiveOf(H)[p := lead][p + lead := n - lead] && p + lead !in LiveOf(H)
    requires Kept(m, m1, LiveOf(H)[p := lead]) && Kept(m1, m2, LiveOf(H'))
    ensures Kept(m, m2, LiveOf(H) - {p})
  {
    hide LiveOf, SameUser;
    KeptSub(m, m1, LiveOf(H)[p := lead], LiveOf(H) - {p});
    KeptSub(m1, m2, LiveOf(H'), LiveOf(H) - {p});
    KeptTrans(m, m1, m2, LiveOf(H) - {p});
  }

  lemma LeaderCommutes(s: State, p: int, lead: int)
    requires Sound(s) && NoRaw(s.H) && p in s.H && s.H[p].st.Live? && lead >= MINSIZE && s.H[p].n - lead >= MINSIZE
    ensures var n := s.H[p].n; var m1, m2 := SplitLiveWords(s.m, p, n, lead), LeaderWords(s.m, p, n, lead);
            forall a {:trigger m2.e(a)} {:trigger m2.o(a)} :: m2.e(a) == m1.e(a) && m2.o(a) == m1.o(a)
  {
    hide Sound;
    LiveHead(s, p);
    TopInuse(s);
  }

  lemma LeaderLive(H: Heap, p: int, lead: int, newp: int)
    requires newp == p + lead && lead > 0 && p in LiveOf(H) && LiveOf(H)[p] == lead
    ensures p in H && H[p].n == lead
  {}

  lemma LeaderFreed(s: State, s1: State, s2: State, p: int, newp: int)
    requires p in LiveOf(s.H) && newp != p && newp !in LiveOf(s.H)
    requires LiveOf(s1.H) == LiveOf(s.H)[p := newp - p][newp := LiveOf(s.H)[p] - (newp - p)] && LiveOf(s2.H) == LiveOf(s1.H) - {p}
    requires Kept(s.m, s1.m, LiveOf(s.H) - {p}) && Kept(s1.m, s2.m, LiveOf(s2.H))
    ensures LiveOf(s2.H) == (LiveOf(s.H) - {p})[newp := LiveOf(s.H)[p] - (newp - p)]
    ensures Kept(s.m, s2.m, LiveOf(s.H) - {p})
  {
    hide LiveOf, SameUser;
    KeptSub(s1.m, s2.m, LiveOf(s2.H), LiveOf(s.H) - {p});
    KeptTrans(s.m, s1.m, s2.m, LiveOf(s.H) - {p});
  }

  // ---------------------------------------------------------------- the tail

  lemma TailCreatable(s: State, p: int, nb: int)
    requires Sound(s) && Quiet(s.H) && p in LiveOf(s.H) && nb % 16 == 0 && MINSIZE <= nb <= LiveOf(s.H)[p] - 16
    requires var n := LiveOf(s.H)[p]; var q := p + n; n - nb >= MINSIZE || q == s.top || (q in s.H && s.H[q].st.Binned?)
    ensures p in s.H
    ensures var m', H' := SetHeadSize(s.m, p, nb), CutLive(s.H, p, nb); var n := LiveOf(s.H)[p];
            && p + nb in H' && H'[p + nb].n == n - nb && Creatable(s.(m := m', H := H'), p + nb, p + n)
            && LiveOf(H') == LiveOf(s.H)[p := nb] && Kept(s.m, m', LiveOf(H')) && SameListed(s.H, H') && m'.Size(p + n) == s.m.Size(p + n)
            && SameFences(s.H, H')
  {
    hide Sound;
    LiveIn(s.H, p);
    TrimRawSound(s, p, nb);
    LiveHead(s, p);
  }

  /** The end of the block is given back: it makes a chunk, or what follows is unused. */
  ghost predicate TailGoes(s: State, p: int, size: int, nb: int) {
    size > nb && (size - nb >= MINSIZE || p + size == s.top || InStock(s.H, p + size))
  }

  /** Give back spare room at the end, if it makes a chunk or joins unused space. */
  method GiveTail(av: MallocState, p: int, nb: int)
    requires av.Valid() && p in LiveOf(av.H) && nb % 16 == 0 && MINSIZE <= nb <= LiveOf(av.H)[p]
    modifies av`m, av`H, av`top, av`binmap, av`haveFastchunks, av`brk, av`calls, av`systemMem
    ensures av.Valid() && av.systemMem <= old(av.systemMem) && Churned(old(av.S()), av.S())
    ensures p in LiveOf(av.H) && LiveOf(av.H) == old(LiveOf(av.H))[p := LiveOf(av.H)[p]] && nb <= LiveOf(av.H)[p] < nb + MINSIZE
    ensures LiveOf(av.H)[p] <= old(LiveOf(av.H))[p] && Kept(old(av.m), av.m, LiveOf(av.H))
    ensures var size := old(LiveOf(av.H))[p];
            LiveOf(av.H)[p] == (if TailGoes(old(av.S()), p, size, nb) then nb else size) && Freeing(av.S(), p + LiveOf(av.H)[p], p + size)
  {
    hide Sound, Kept, LiveOf, Quiet, CutLive, Mem.SetHead, SetHeadSize, SameCached, SameFences, SameListed, Creatable, Freeing, FastEmpty;
    ghost var s := av.S();
    ReallocGuards(s, p);
    KeptRefl(av.m, LiveOf(av.H));
    ChurnedRefl(s);
    NothingFreeing(s, p + LiveOf(av.H)[p]);
    var size := av.m.Size(p);
    var nextchunk := p + size;
    var nextsize := av.m.Size(nextchunk);
    if size > nb {
      var remainderSize := size - nb;
      TopNoStock(s);
      if nextchunk != av.top {
        NextUse(s, p);
      }
      if remainderSize >= MINSIZE || nextchunk == av.top || !av.m.PrevInuse(nextchunk + nextsize) {
        TrimTail(av, p, nb, size, nextchunk, nextsize);
      }
    }
  }

  lemma ChurnedRefl(s: State)
    ensures Churned(s, s)
  {}

  lemma NothingFreeing(s: State, a: int)
    ensures Freeing(s, a, a)
  {}

  lemma TopNoStock(s: State)
    requires Sound(s)
    ensures !InStock(s.H, s.top)
  {
    hide Links, Marks, Slots, Fresh;
    assert s.top in s.H ==> Placed(s.H, s.base, s.top, s.top);
  }

  /** Everything beyond nb bytes becomes a free chunk, or part of what follows. */
  method TrimTail(av: MallocState, p: int, nb: int, size: int, nextchunk: int, nextsize: int)
    requires Trailing(av, p, nb, size, nextchunk, nextsize)
    modifies av`m, av`H, av`top, av`binmap, av`haveFastchunks, av`brk, av`calls, av`systemMem
    ensures av.Valid() && av.systemMem <= old(av.systemMem) && Churned(old(av.S()), av.S())
    ensures LiveOf(av.H) == old(LiveOf(av.H))[p := nb] && Kept(old(av.m), av.m, LiveOf(av.H)) && Freeing(av.S(), p + nb, p + size)
  {
    hide Sound, Kept, LiveOf, Quiet, SameCached, SameFences, FastSub, FastEmpty, Freeing, Churned, TrimDone, TrimOffer, Trailing, Mem.Size;
    ghost var s := av.S();
    var remainderSize := CreateTail(av, p, nb, size, nextchunk, nextsize);
    ghost var s2 := av.S();
    FreeMaybeConsolidate(av, remainderSize);
    KeptTrans(s.m, s2.m, av.m, LiveOf(av.H));
    SameChurned(s2, av.S());
    FreeingStays(s2, av.S(), p + nb, p + size);
    ChurnedTrans(s, s2, av.S());
  }

  /** Block `p` can be cut back to nb bytes. */
  ghost predicate Trailing(av: MallocState, p: int, nb: int, size: int, nextchunk: int, nextsize: int)
    reads av
  {
    && av.Valid() && p in LiveOf(av.H) && LiveOf(av.H)[p] == size && nb % 16 == 0 && MINSIZE <= nb <= size - 16
    && nextchunk == p + size && nextsize == av.m.Size(nextchunk)
    && (size - nb >= MINSIZE || nextchunk == av.top || (nextchunk in av.H && av.H[nextchunk].st.Binned?))
  }

  method CreateTail(av: MallocState, p: int, nb: int, size: int, nextchunk: int, nextsize: int) returns (remainderSize: int)
    requires Trailing(av, p, nb, size, nextchunk, nextsize)
    modifies av`m, av`H, av`top, av`binmap
    ensures av.Valid() && Churned(old(av.S()), av.S()) && av.top != Hdr(UNSORTED)
    ensures LiveOf(av.H) == old(LiveOf(av.H))[p := nb] && Kept(old(av.m), av.m, LiveOf(av.H)) && Freeing(av.S(), p + nb, p + size)
  {
    hide Sound, Kept, LiveOf, Quiet, CutLive, Mem.SetHead, Mem.Size, SetHeadSize, SameFences;
    hide SameListed, Creatable, FastEmpty, Freeing, Churned, FreeBin, TopWords, InStock, InBin;
    ghost var s := av.S();
    TailCreatable(s, p, nb);
    NextPositive(s, p);
    var remainder := p + nb;
    av.m := SetHeadSize(av.m, p, nb);
    av.H := CutLive(s.H, p, nb);
    ghost var s1 := av.S();
    remainderSize := FreeCreateChunk(av, remainder, size - nb, nextchunk, nextsize);
    ghost var s2 := av.S();
    KeptTrans(s.m, s1.m, s2.m, LiveOf(s2.H));
    SameListedTrans(s.H, s1.H, s2.H);
    SameFencesTrans(s.H, s1.H, s2.H);
    QuietFrame(s.H, s2.H);
    TopStays'(s2, p);
    TailChurned(s, s2, p, nb);
    TailFreeing(s2, remainder, FreeBin(remainderSize), p + size);
  }

  lemma NextPositive(s: State, p: int)
    requires Sound(s) && Quiet(s.H) && p in LiveOf(s.H)
    ensures s.m.Size(p + LiveOf(s.H)[p]) >= 0
  {
    hide Sound;
    ReallocGuards(s, p);
  }

  lemma TailChurned(s: State, s2: State, p: int, nb: int)
    requires SameListed(s.H, s2.H) && SameFences(s.H, s2.H) && s2.top <= s.top && s2.base == s.base
    requires p in LiveOf(s.H) && nb <= LiveOf(s.H)[p] && LiveOf(s2.H) == LiveOf(s.H)[p := nb]
    ensures Churned(s, s2)
  {
    hide LiveOf, SameListed, SameFences;
    CachedFrame(s.H, s2.H);
  }

  lemma TailFreeing(s2: State, r: int, b: int, end: int)
    requires s2.top == r || (InBin(s2.H, r, b) && r + s2.H[r].n >= end)
    ensures Freeing(s2, r, end)
  {
    forall a | r <= a < end ensures Recycled(s2.H, s2.top, a) {
      assert s2.top != r ==> InStock(s2.H, r);
    }
  }

  lemma SameChurned(s: State, s1: State)
    requires SameCached(s.H, s1.H) && SameFences(s.H, s1.H) && FastSub(s.H, s1.H) && s1.top <= s.top && s1.base == s.base && LiveOf(s1.H) == LiveOf(s.H)
    ensures Churned(s, s1)
  {}

  lemma TopStays'(s: State, p: int)
    requires Sound(s) && p in LiveOf(s.H)
    ensures s.top != Hdr(UNSORTED)
  {
    TopStays(s, p);
  }

  // ---------------------------------------------------------------- the sum of sizes

  lemma {:induction false} PowersApart(x: int, y: int)
    requires IsPowerOf2(x) && IsPowerOf2(y) && x < 2 * y
    ensures x <= y
    decreases y
  {
    if x > 1 && y > 1 {
      PowersApart(x / 2, y / 2);
    }
  }

  lemma PowerTimes16(x: int)
    requires IsPowerOf2(x)
    ensures IsPowerOf2(2 * x) && IsPowerOf2(4 * x) && IsPowerOf2(8 * x) && IsPowerOf2(16 * x)
  {
    assert (2 * x) / 2 == x && (4 * x) / 2 == 2 * x && (8 * x) / 2 == 4 * x && (16 * x) / 2 == 8 * x;
    assert x >= 1;
  }

  lemma BigPowers()
    ensures IsPowerOf2(0x4000_0000_0000_0000) && IsPowerOf2(0x8000_0000_0000_0000)
  {
    assert IsPowerOf2(1);
    hide IsPowerOf2;
    PowerTimes16(0x1);
    PowerTimes16(0x10);
    PowerTimes16(0x100);
    PowerTimes16(0x1000);
    PowerTimes16(0x10000);
    PowerTimes16(0x100000);
    PowerTimes16(0x1000000);
    PowerTimes16(0x10000000);
    PowerTimes16(0x100000000);
    PowerTimes16(0x1000000000);
    PowerTimes16(0x10000000000);
    PowerTimes16(0x100000000000);
    PowerTimes16(0x1000000000000);
    PowerTimes16(0x10000000000000);
    PowerTimes16(0x100000000000000);
    PowerTimes16(0x1000_0000_0000_0000);
  }

  /** An alignment that is or is rounded up to 2^63, and a request in the topmost 55 bytes. */
  predicate Wrapping(alignment: int, bytes: nat) {
    0x4000_0000_0000_0000 < alignment <= 0x8000_0000_0000_0000 && PTRDIFF_MAX - 54 <= bytes <= PTRDIFF_MAX
  }

  /** The unchecked sum `nb + alignment + MINSIZE` exceeds a word for just these, and what would be asked for
      then is at most 48 bytes. */
  lemma WrapsExactly(alignment: int, bytes: nat)
    requires IsPowerOf2(alignment) && alignment <= 0x8000_0000_0000_0000 && bytes <= PTRDIFF_MAX
    ensures var nb := Request2Size(bytes); var sum := nb + alignment + MINSIZE;
            && (sum >= WORD <==> Wrapping(alignment, bytes))
            && (Wrapping(alignment, bytes) ==> sum % WORD <= 48 < nb)
  {
    hide IsPowerOf2;
    BigPowers();
    if alignment < 0x8000_0000_0000_0000 {
      PowersApart(alignment, 0x4000_0000_0000_0000);
    }
  }

  // ---------------------------------------------------------------- _int_memalign

  /** Where the block begins that is cut from chunk `p`. */
  function AlignedSpot(p: int, alignment: int): int
    requires alignment > 0
  {
    if (p + 16) % alignment == 0 then p else AlignedChunk(p, alignment)
  }

  /** One call of `_int_memalign` for a request that is not too large by itself: the inner request is for the worst
      case, and NULL comes back exactly if that is too large or fails. The block begins at the aligned spot, and
      what the inner request got besides it is free again. */
  ghost predicate Aligns(cfg: Config, a0: Snapshot, a1: Snapshot, alignment: int, nb: nat, mem: int, r: Request)
    requires alignment > 0
  {
    var inner := nb + alignment + MINSIZE;
    if inner > PTRDIFF_MAX then
      mem == NULL && a1 == a0
    else
      && r.at == a0 && Answered(cfg, r, Request2Size(inner)) && (mem == NULL <==> Failed(cfg, r, Request2Size(inner)))
      && (if mem == NULL then a1 == r.after else CutOut(r.after.s, a1.s, r.p, AlignedSpot(r.p, alignment), nb) && mem == AlignedSpot(r.p, alignment) + 16)
  }

  /** Of block `p` only the block `q` is left, cut to nb bytes if what is left makes a chunk or what follows is
      unused; the cache is as it was. */
  ghost predicate CutOut(s: State, s': State, p: int, q: int, nb: int) {
    var L, L' := LiveOf(s.H), LiveOf(s'.H);
    && p in L && q in L' && SameCached(s.H, s'.H) && Freeing(s', p, q) && Freeing(s', q + L'[q], p + L[p])
    && (p == q ==> L'[q] == if TailGoes(s, p, L[p], nb) then nb else L[p])
  }

  /** An aligned block of at least the padded size and less than MINSIZE more; every live block is left
      alone. The sum of sizes is assumed not to wrap. */
  method IntMemalign(av: MallocState, alignment: int, bytes: nat) returns (mem: int, ghost r: Request)
    requires av.Settled() && IsPowerOf2(alignment) && alignment >= MINSIZE
    requires bytes <= PTRDIFF_MAX ==> Request2Size(bytes) + alignment + MINSIZE < WORD
    modifies av
    ensures old(av.Recorded()) ==> av.Recorded()
    ensures av.Settled() && |av.numSlots| == |old(av.numSlots)|
    ensures mem == NULL ==> Unsupplied(old(av.S()), av.S())
    ensures mem != NULL ==> mem % alignment == 0 && mem >= HEAP_MIN && Granted(old(av.H), av.H, mem - 16, Request2Size(bytes))
    ensures mem != NULL ==> Kept(old(av.m), av.m, old(LiveOf(av.H)))
    ensures if bytes > PTRDIFF_MAX then mem == NULL && Snap(av) == old(Snap(av))
            else Aligns(ConfigOf(av), old(Snap(av)), Snap(av), alignment, Request2Size(bytes), mem, r)
  {
    hide Sound, Kept, LiveOf, Quiet, Supplied, Unsupplied, Granted, SameCached, SameFences;
    hide AlignedChunk, Answered, Failed, Freeing, Churned, CutOut, TailGoes, FastEmpty, Mem.Size;
    ghost var s := av.S();
    r := Idle(Snap(av));
    UnsuppliedRefl(s);
    if bytes > PTRDIFF_MAX {
      return NULL, r;
    }
    var nb := Request2Size(bytes);
    Request2SizeIsLeast(bytes, nb);
    Request2SizeIsLeast(nb + alignment + MINSIZE, 0);
    mem, r := IntMalloc(av, nb + alignment + MINSIZE);
    if mem == NULL {
      return;
    }
    var p := mem - 16;
    ghost var s1 := av.S();
    MallocedFacts(s, s1, p, Request2Size(nb + alignment + MINSIZE));
    CachedFrame(s1.H, s1.H);
    NothingFreeing(s1, p);
    if mem % alignment != 0 {
      AlignedFits(p, alignment, nb, LiveOf(av.H)[p]);
      var newp := AlignedChunk(p, alignment);
      GiveLeader(av, p, newp);
      LeaderGiven(s, s1, av.S(), p, newp);
      p := newp;
    }
    ghost var s2 := av.S();
    GiveTail(av, p, nb);
    TailGiven(s, s2, av.S(), p, nb);
    BelowTop(av.S(), p);
    FreeingStays(s2, av.S(), r.p, p);
    BothGiven(s1, s2, av.S(), r.p, p, nb);
    mem := p + 16;
  }

  lemma BothGiven(s1: State, s2: State, s3: State, p: int, q: int, nb: int)
    requires p in LiveOf(s1.H) && q in LiveOf(s2.H) && q in LiveOf(s3.H) && q + LiveOf(s2.H)[q] == p + LiveOf(s1.H)[p] && (p == q ==> s2 == s1)
    requires SameCached(s1.H, s2.H) && Churned(s2, s3) && Freeing(s3, p, q) && Freeing(s3, q + LiveOf(s3.H)[q], q + LiveOf(s2.H)[q])
    requires LiveOf(s3.H)[q] == if TailGoes(s2, q, LiveOf(s2.H)[q], nb) then nb else LiveOf(s2.H)[q]
    ensures CutOut(s1, s3, p, q, nb)
  {
    hide LiveOf, SameCached, SameFences, Freeing, TailGoes;
    SameCachedTrans(s1.H, s2.H, s3.H);
  }

  /** The block is new: it and the old blocks are all that is live. */
  ghost predicate Added(s: State, s1: State, p: int) {
    && p in LiveOf(s1.H) && p !in LiveOf(s.H) && LiveOf(s1.H) == LiveOf(s.H)[p := LiveOf(s1.H)[p]]
    && Kept(s.m, s1.m, LiveOf(s.H)) && p % 16 == 0
  }

  lemma MallocedFacts(s: State, s1: State, p: int, nb: int)
    requires Supplied(s, s1, p, nb) && Sound(s1)
    ensures Added(s, s1, p) && LiveOf(s1.H)[p] >= nb && LiveOf(s1.H)[p] % 16 == 0 && p >= HEAP_MIN
  {
    BelowTop(s1, p);
  }

  lemma LeaderGiven(s: State, s1: State, s2: State, p: int, newp: int)
    requires Added(s, s1, p) && newp !in LiveOf(s1.H) && LiveOf(s2.H) == (LiveOf(s1.H) - {p})[newp := LiveOf(s1.H)[p] - (newp - p)]
    requires Kept(s1.m, s2.m, LiveOf(s1.H) - {p}) && newp % 16 == 0
    ensures Added(s, s2, newp) && LiveOf(s2.H)[newp] == LiveOf(s1.H)[p] - (newp - p)
  {
    hide LiveOf, SameUser;
    assert LiveOf(s1.H) - {p} == LiveOf(s.H);
    KeptTrans(s.m, s1.m, s2.m, LiveOf(s.H));
  }

  lemma TailGiven(s: State, s2: State, s3: State, p: int, nb: int)
    requires Added(s, s2, p) && p in LiveOf(s3.H) && LiveOf(s3.H) == LiveOf(s2.H)[p := LiveOf(s3.H)[p]]
    requires nb <= LiveOf(s3.H)[p] < nb + MINSIZE && Kept(s2.m, s3.m, LiveOf(s3.H))
    ensures Granted(s.H, s3.H, p, nb) && Kept(s.m, s3.m, LiveOf(s.H)) && p in LiveOf(s3.H)
  {
    hide LiveOf, SameUser;
    KeptSub(s2.m, s3.m, LiveOf(s3.H), LiveOf(s.H));
    KeptTrans(s.m, s2.m, s3.m, LiveOf(s.H));
  }
}
