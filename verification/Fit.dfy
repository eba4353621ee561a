/** `_int_malloc`: the best fit found by the search is taken off its bin and cut to size. */
module Fit {
  import opened Sizes
  import opened Memory
  import opened Heap
  import opened RingProofs
  import opened LayoutProofs
  import opened Arena
  import opened Free
  import opened Unlink
  import opened ExactFit
  import opened LargeBins
  import opened Split
  import opened Search
  import opened ListEntries
  import opened Shelves

  /** Of all chunks in the sorted bins that can hold nb bytes, `p` is a smallest one. */
  ghost predicate BestFit(H: Heap, nb: int, p: int) {
    && p in H && H[p].st.Binned? && H[p].st.b >= 2 && H[p].n >= nb
    && forall q, b {:trigger InBin(H, q, b)} :: b >= 2 && InBin(H, q, b) && H[q].n >= nb ==> H[p].n <= H[q].n
  }

  /** No chunk in the sorted bins can hold nb bytes. */
  ghost predicate NoneFits(H: Heap, nb: int) {
    forall q, b {:trigger InBin(H, q, b)} :: b >= 2 && InBin(H, q, b) ==> H[q].n < nb
  }

  /** No chunk in bin b can hold nb bytes. */
  ghost predicate NoneIn(H: Heap, b: int, nb: int) {
    forall q {:trigger InBin(H, q, b)} :: InBin(H, q, b) ==> H[q].n < nb
  }

  /** A sorted bin holds only chunks of its own index. */
  lemma SortedIndex(s: State, q: int, b: int)
    requires Sound(s) && InBin(s.H, q, b) && b >= 2
    ensures b == BinIndex(s.H[q].n) && s.H[q].n >= MINSIZE && s.H[q].n % 16 == 0
  {
    assert BinOk(s.H, q);
    BinSize(s, q, b);
  }

  lemma LeastIsBest(s: State, nb: int, p: int)
    requires Sound(s) && nb >= MINSIZE && LeastIn(s.H, BinIndex(nb), nb, p)
    ensures BestFit(s.H, nb, p)
  {
    hide Sound, BinIndex;
    var idx := BinIndex(nb);
    BinIndexRange(nb);
    SortedIndex(s, p, idx);
    forall q, b | b >= 2 && InBin(s.H, q, b) && s.H[q].n >= nb ensures s.H[p].n <= s.H[q].n {
      SortedIndex(s, q, b);
      BinIndexMonotone(nb, s.H[q].n);
      if b > idx && s.H[q].n < s.H[p].n {
        BinIndexMonotone(s.H[q].n, s.H[p].n);
      }
    }
  }

  /** The last chunk of a sorted bin is its smallest. */
  lemma LastIsLeast(s: State, b: int, p: int, q: int)
    requires Sound(s) && 2 <= b <= 126 && InBin(s.H, p, b) && p == s.m.Bk(Hdr(b)) && InBin(s.H, q, b)
    ensures s.H[p].n <= s.H[q].n
  {
    SortedIndex(s, p, b);
    SortedIndex(s, q, b);
    BinIndexRange(s.H[p].n);
    BinIndexRange(s.H[q].n);
    if b >= 64 {
      assert RingAt(s.m, s.H, b, Hdr(b));
      EndsFacts(s, b);
    }
  }

  lemma LowestIsBest(s: State, nb: int, b: int, p: int)
    requires Sound(s) && nb >= MINSIZE && NoneIn(s.H, BinIndex(nb), nb) && BinIndex(nb) < b <= 126
    requires EmptyRange(s.H, BinIndex(nb) + 1, b) && InBin(s.H, p, b) && p == s.m.Bk(Hdr(b))
    ensures BestFit(s.H, nb, p)
  {
    hide Sound, BinIndex;
    var idx := BinIndex(nb);
    BinIndexRange(nb);
    SortedIndex(s, p, b);
    if s.H[p].n < nb {
      BinIndexMonotone(s.H[p].n, nb);
    }
    forall q, c | c >= 2 && InBin(s.H, q, c) && s.H[q].n >= nb ensures s.H[p].n <= s.H[q].n {
      SortedIndex(s, q, c);
      BinIndexMonotone(nb, s.H[q].n);
      if c == b {
        LastIsLeast(s, b, p, q);
      } else if s.H[q].n < s.H[p].n {
        BinIndexMonotone(s.H[q].n, s.H[p].n);
      }
    }
  }

  lemma NothingFits(s: State, nb: int)
    requires Sound(s) && nb >= MINSIZE && NoneIn(s.H, BinIndex(nb), nb) && EmptyRange(s.H, BinIndex(nb) + 1, 128)
    ensures NoneFits(s.H, nb)
  {
    hide Sound, BinIndex;
    forall q, b | b >= 2 && InBin(s.H, q, b) ensures s.H[q].n < nb {
      SortedIndex(s, q, b);
      BinIndexRange(s.H[q].n);
      if s.H[q].n >= nb {
        BinIndexMonotone(nb, s.H[q].n);
      }
    }
  }

  // ---------------------------------------------------------------- taking it

  /** The binned chunk `p` was unlinked: its tags are as they were. */
  lemma UnlinkedFacts(s: State, s1: State, p: int)
    requires Sound(s) && p in s.H && s.H[p].st.Binned? && NoRaw(s.H)
    requires Sound(s1) && s1.H == s.H[p := Chunk(s.H[p].n, Raw)] && TagWordsSame(s.m, s1.m, s.H)
    ensures OnlyRaw(s1.H, p) && s1.H[p].n >= MINSIZE && s1.H[p].n % 16 == 0 && p % 16 == 0 && p >= HEAP_MIN && s1.top != Hdr(UNSORTED)
    ensures var q := p + s1.H[p].n; s1.m.Head(p) == s1.H[p].n + 1 && q in s1.H && s1.m.Head(q) == s1.H[q].n
    ensures LiveOf(s1.H) == LiveOf(s.H) && p !in LiveOf(s.H)
  {
    hide Links, Marks, Slots, Fresh;
    assert TagAt(s.m, s.H, s.top, p) && Placed(s.H, s.base, s.top, p);
    Occupied(s, p);
    assert p + s.H[p].n in s.H;
  }

  /** How much of a chunk of n bytes is handed out for a request of nb bytes: what is left must make a chunk. */
  function Fitted(n: int, nb: int): int {
    if n - nb < MINSIZE then n else nb
  }

  /** A block of nb bytes was cut from the chunk `p` of n bytes. If something is left it is the first unsorted
      chunk, and for a small request it is noted as the last remainder. */
  ghost predicate CutFrom(m0: Mem, s: State, p: int, n: int, nb: int, advertise: bool) {
    && p in LiveOf(s.H) && LiveOf(s.H)[p] == Fitted(n, nb)
    && (n > Fitted(n, nb) ==> InBin(s.H, p + nb, UNSORTED) && s.H[p + nb].n == n - nb && s.m.Fd(Hdr(UNSORTED)) == p + nb)
    && s.m.Head(Hdr(UNSORTED)) == if n > Fitted(n, nb) && advertise then p + nb else m0.Head(Hdr(UNSORTED))
  }

  /** Unlink the chunk and hand it out whole, or cut to size if what is left makes a chunk. */
  method TakeFit(av: MallocState, victim: int, size: int, nb: int, advertise: bool)
    requires av.Valid() && victim in av.H && av.H[victim].st.Binned? && av.H[victim].n == size >= nb
    requires nb % 16 == 0 && nb >= MINSIZE
    modifies av`m, av`H
    ensures av.Valid() && Granted(old(av.H), av.H, victim, nb) && Kept(old(av.m), av.m, old(LiveOf(av.H)))
    ensures CutFrom(old(av.m), av.S(), victim, size, nb, advertise) && av.m.PrevInuse(victim) && SameListed(old(av.H), av.H)
  {
    hide Sound, Kept, LiveOf, SameListed, Put, Mem.SetPrevInuse, FastEmpty, Mem.Head, Mem.SetHead;
    ghost var s := av.S();
    var remainderSize := size - nb;
    UnlinkChunk(av, victim);
    ghost var s1 := av.S();
    UnlinkedFacts(s, s1, victim);
    if remainderSize < MINSIZE {
      GiveSound(s1, victim);
      HdrHead(s1.m, victim + size);
      av.m := av.m.SetPrevInuse(victim + size);
      av.H := av.H[victim := Chunk(size, Live)];
      SameListedTrans(s.H, s1.H, av.H);
    } else {
      var remainder := SplitRemainder(av, victim, size, nb);
      SameListedTrans(s.H, s1.H, av.H);
      if advertise {
        RemainderSound(av.S(), remainder);
        OtherHead(av.m, Hdr(UNSORTED), remainder, victim);
        HeadStored(av.m, Hdr(UNSORTED), remainder);
        ghost var s2 := av.S();
        av.m := av.m.SetHead(Hdr(UNSORTED), remainder);
        LiveSub(s2.m, av.m, s1.H, victim, nb, av.H);
        KeptTrans(s1.m, s2.m, av.m, LiveOf(s.H));
      }
    }
    KeptTrans(s.m, s1.m, av.m, LiveOf(s.H));
    QuietFrame(s.H, av.H);
  }

  lemma HdrHead(m: Mem, q: int)
    requires q >= HEAP_MIN
    ensures m.SetPrevInuse(q).Head(Hdr(UNSORTED)) == m.Head(Hdr(UNSORTED))
  {}

  lemma HeadStored(m: Mem, p: int, v: int)
    ensures m.SetHead(p, v).Head(p) == v && m.SetHead(p, v).Fd(p) == m.Fd(p)
  {}

  /** The bin search of `_int_malloc`: the block cut from the best fit, or NULL if nothing fits. For a
      small request the request's own bin is known to be empty. */
  method FitFromBins(av: MallocState, nb: int, idx: int) returns (p: int)
    requires av.Valid() && nb % 16 == 0 && nb >= MINSIZE && idx == BinIndex(nb)
    requires InSmallRange(nb) ==> EmptyBin(av.H, idx)
    modifies av`m, av`H, av`binmap
    ensures av.Valid()
    ensures p != NULL ==> BestFit(old(av.H), nb, p) && Granted(old(av.H), av.H, p, nb) && Kept(old(av.m), av.m, old(LiveOf(av.H))) && av.m.PrevInuse(p)
    ensures p != NULL ==> CutFrom(old(av.m), av.S(), p, old(av.H)[p].n, nb, InSmallRange(nb))
    ensures p == NULL ==> NoneFits(av.H, nb) && av.H == old(av.H) && av.m == old(av.m)
    ensures p == Pick(old(av.H), Bins(old(av.H)), nb)
  {
    hide Sound, Kept, LiveOf, BinIndex, CutFrom, FastEmpty, SameListed, BinEntries, OwnPick, AbovePick;
    BinIndexRange(nb);
    p := NULL;
    if !InSmallRange(nb) {
      p := LargeScan(av, nb, idx);
      if p != NULL {
        LeastIsBest(av.S(), nb, p);
        BinSize(av.S(), p, idx);
        TakeFit(av, p, av.m.Size(p), nb, false);
        return;
      }
    }
    ghost var b;
    p, b := BinmapScan(av, idx);
    if p == NULL {
      NothingFits(av.S(), nb);
      return;
    }
    LowestIsBest(av.S(), nb, b, p);
    BinSize(av.S(), p, b);
    var size := av.m.Size(p);
    if size < nb {
      assert false; // assert (size >= nb)
    }
    TakeFit(av, p, size, nb, InSmallRange(nb));
  }
}
