/** `_int_malloc`: working off the unsorted list, one chunk at a time. */
module Unsorted {
  import opened Sizes
  import opened Memory
  import opened Heap
  import opened RingProofs
  import opened Steps
  import opened ListingProofs
  import opened Arena
  import opened Binmap
  import opened Free
  import opened Consolidate
  import opened Tcache
  import opened ListEntries
  import opened ExactFit
  import opened LargeBins
  import opened Split
  import opened FreeChunk
  import opened Sorting
  import opened Shelves

  /** What the checks on the last unsorted chunk compare. */
  lemma UnsortedGuards(s: State)
    requires Sound(s) && s.m.Bk(Hdr(UNSORTED)) != Hdr(UNSORTED)
    ensures var p := s.m.Bk(Hdr(UNSORTED)); var n := s.m.Size(p); var next := p + n;
            && p in s.H && n == s.H[p].n && CHUNK_HDR_SZ < n <= s.systemMem
            && CHUNK_HDR_SZ <= s.m.Head(next) <= s.systemMem && s.m.PrevSize(next) == n
            && s.m.PrevSize(next) - s.m.PrevSize(next) % 8 == n && !s.m.PrevInuse(next)
            && s.m.Fd(s.m.Bk(p)) == p && s.m.Fd(p) == Hdr(UNSORTED) && InBin(s.H, p, UNSORTED) && p % 16 == 0
  {
    hide Marks, Slots, Fresh;
    LastFacts(s, UNSORTED);
    var p := s.m.Bk(Hdr(UNSORTED));
    var q := p + s.H[p].n;
    assert TagAt(s.m, s.H, s.top, p) && Placed(s.H, s.base, s.top, p) && Placed(s.H, s.base, s.top, q);
    HeadDecodes(s.m, q, s.H[q].n);
    WordDecodes(s.m.PrevSize(q), s.H[p].n);
    Occupied(s, p);
  }

  /** The state after the last chunk was taken off the unsorted list. */
  ghost function Removed(s: State): State
    requires s.m.Bk(Hdr(UNSORTED)) in s.H
  {
    var p, u := s.m.Bk(Hdr(UNSORTED)), Hdr(UNSORTED);
    s.(m := s.m.SetBk(u, s.m.Bk(p)).SetFd(s.m.Bk(p), u), H := s.H[p := Chunk(s.H[p].n, Raw)])
  }

  lemma RemovedIntact(s: State)
    requires Sound(s) && Quiet(s.H) && s.m.Bk(Hdr(UNSORTED)) != Hdr(UNSORTED)
    ensures var p := s.m.Bk(Hdr(UNSORTED));
            && p in s.H && Intact(Removed(s), p) && OnlyRaw(Removed(s).H, p) && ChainHead(Removed(s).H, NULL)
            && LiveOf(Removed(s).H) == LiveOf(s.H) && Kept(s.m, Removed(s).m, LiveOf(s.H)) && p !in LiveOf(s.H)
            && s.H[p].n >= MINSIZE && s.H[p].n % 16 == 0
  {
    hide Links, Marks, Slots, Fresh;
    LastFacts(s, UNSORTED);
    RemoveLastSound(s, UNSORTED);
    var p := s.m.Bk(Hdr(UNSORTED));
    assert TagAt(s.m, s.H, s.top, p) && Placed(s.H, s.base, s.top, p);
    var q := p + s.H[p].n;
    assert q in s.H;
    assert Removed(s).m.Head(q) == s.m.Head(q) && Removed(s).m.PrevSize(q) == s.m.PrevSize(q);
    forall x ensures !InList(Removed(s).H, x, DETACHED) {
      assert !InList(s.H, x, DETACHED);
    }
  }

  // ---------------------------------------------------------------- the last remainder

  /** Splitting the only unsorted chunk when it is the last remainder. */
  lemma LastRemainderSound(s: State, nb: int) returns (H': Heap)
    requires Sound(s) && Quiet(s.H) && s.m.Bk(Hdr(UNSORTED)) != Hdr(UNSORTED)
    requires s.m.Bk(s.m.Bk(Hdr(UNSORTED))) == Hdr(UNSORTED)
    requires nb % 16 == 0 && nb >= MINSIZE && s.m.Bk(Hdr(UNSORTED)) in s.H && s.H[s.m.Bk(Hdr(UNSORTED))].n > nb + MINSIZE
    ensures var p := s.m.Bk(Hdr(UNSORTED)); var size := s.H[p].n;
            var m' := LastRemainderWords(s.m, p, size, nb);
            && Sound(s.(m := m', H := H')) && Quiet(H') && p !in LiveOf(s.H) && SameListed(s.H, H')
            && LiveOf(H') == LiveOf(s.H)[p := nb] && Kept(s.m, m', LiveOf(s.H)) && Divided(s.H, H', p, nb)
            && m'.Head(Hdr(UNSORTED)) == p + nb && m'.PrevInuse(p)
  {
    hide Sound, Kept, LiveOf, SplitHeap, Intact, Splittable, SplitWritten, LastRemainderWords, SameListed, Put;
    var p, u := s.m.Bk(Hdr(UNSORTED)), Hdr(UNSORTED);
    var size, r := s.H[p].n, p + nb;
    var s1 := Removed(s);
    RemovedIntact(s);
    IntactSplittable(s1, p, nb);
    LowIn(s1, p);
    RemainderSound(s1, r);
    var s2 := s1.(m := s1.m.SetHead(u, r));
    var m' := LastRemainderWords(s.m, p, size, nb);
    SplittableRemainder(s1, p, nb, r);
    CutSound(s2, p, nb);
    LowIn(s2, p);
    LastRemainderStores(s.m, p, size, nb);
    SplitSound(s2, p, nb, m');
    KeptTrans(s.m, s1.m, s2.m, LiveOf(s.H));
    KeptTrans(s.m, s2.m, m', LiveOf(s.H));
    H' := SplitHeap(s2, p, nb);
    QuietListed(s2.H, H');
    RemovedListed(s);
    SameListedTrans(s.H, s1.H, H');
    LastNoted(s.m, p, size, nb);
    assert s.(m := m', H := H') == s2.(m := m', H := H');
  }

  lemma RemovedListed(s: State)
    requires Sound(s) && s.m.Bk(Hdr(UNSORTED)) != Hdr(UNSORTED)
    ensures s.m.Bk(Hdr(UNSORTED)) in s.H && SameListed(s.H, Removed(s).H) && Removed(s).m.Head(Hdr(UNSORTED)) == s.m.Head(Hdr(UNSORTED))
  {
    LastFacts(s, UNSORTED);
  }

  /** A chunk that is on no list changes its use and is on none afterwards. */
  lemma UnlistedSame(H: Heap, H': Heap, p: int)
    requires p in H && p in H' && H' == H[p := H'[p]] && !H[p].st.Listed?
    ensures !H'[p].st.Listed? ==> SameListed(H, H')
    ensures (H'[p].st.Listed? ==> H'[p].st.l >= NFASTBINS) && FastEmpty(H, NFASTBINS) ==> FastEmpty(H', NFASTBINS)
  {
    if FastEmpty(H, NFASTBINS) && (H'[p].st.Listed? ==> H'[p].st.l >= NFASTBINS) {
      forall x, k | InList(H', x, k) ensures !(0 <= k < NFASTBINS) {
        assert x != p ==> InList(H, x, k);
      }
    }
  }

  lemma LowIn(s: State, p: int)
    requires Sound(s) && p in s.H
    ensures p >= HEAP_MIN && s.top != Hdr(UNSORTED)
  {
    Occupied(s, p);
  }

  lemma IntactSplittable(s: State, p: int, nb: int)
    requires Intact(s, p) && OnlyRaw(s.H, p) && nb % 16 == 0 && nb >= MINSIZE && s.H[p].n - nb >= MINSIZE
    ensures Splittable(s, p, nb)
  {}

  lemma SplittableRemainder(s: State, p: int, nb: int, r: int)
    requires Splittable(s, p, nb) && s.top != Hdr(UNSORTED)
    ensures Splittable(s.(m := s.m.SetHead(Hdr(UNSORTED), r)), p, nb)
  {
    RemainderSound(s, r);
    Occupied(s, p);
    assert Placed(s.H, s.base, s.top, p);
  }

  /** The stores of the last-remainder split, in source order. */
  function LastRemainderWords(m: Mem, p: int, size: int, nb: int): Mem {
    var r, u := p + nb, Hdr(UNSORTED);
    var m1 := m.SetFd(u, r).SetBk(u, r).SetHead(u, r).SetFd(r, u).SetBk(r, u);
    var m2 := if InSmallRange(size - nb) then m1 else m1.SetFdNext(r, NULL).SetBkNext(r, NULL);
    m2.SetHead(p, nb + 1).SetHead(r, size - nb + 1).SetPrevSize(r + (size - nb), size - nb)
  }

  /** The remainder is noted as the last one, and the chunk below the block is in use. */
  lemma LastNoted(m: Mem, p: int, size: int, nb: int)
    requires p >= HEAP_MIN && nb % 16 == 0 && nb >= MINSIZE && size - nb >= MINSIZE
    ensures var m' := LastRemainderWords(m, p, size, nb); m'.Head(Hdr(UNSORTED)) == p + nb && m'.PrevInuse(p)
  {
    HeadDecodes(LastRemainderWords(m, p, size, nb), p, nb);
  }

  lemma LastRemainderStores(m: Mem, p: int, size: int, nb: int)
    requires p >= HEAP_MIN && nb >= MINSIZE && size - nb >= MINSIZE && m.Bk(p) == Hdr(UNSORTED)
    ensures var u := Hdr(UNSORTED); var m1 := m.SetBk(u, m.Bk(p)).SetFd(m.Bk(p), u).SetHead(u, p + nb);
            SplitWritten(m1, LastRemainderWords(m, p, size, nb), p, size, nb)
  {}

  /** Cut the request from the last remainder, which is the only unsorted chunk; what is left is the last
      remainder then. */
  method SplitLastRemainder(av: MallocState, victim: int, size: int, nb: int)
    requires av.Valid() && av.m.Bk(Hdr(UNSORTED)) == victim != Hdr(UNSORTED) && av.m.Bk(victim) == Hdr(UNSORTED)
    requires nb % 16 == 0 && nb >= MINSIZE && victim in av.H && av.H[victim].n == size > nb + MINSIZE
    modifies av`m, av`H
    ensures av.Valid() && victim !in old(LiveOf(av.H)) && LiveOf(av.H) == old(LiveOf(av.H))[victim := nb]
    ensures Kept(old(av.m), av.m, old(LiveOf(av.H))) && av.m.PrevInuse(victim)
    ensures SameListed(old(av.H), av.H) && Divided(old(av.H), av.H, victim, nb) && av.m.Head(Hdr(UNSORTED)) == victim + nb
    ensures BinEntries(av.H, UNSORTED) == [victim + nb]
  {
    hide Sound, Kept, LiveOf, FastEmpty, SameListed, Quiet, Put, Divided, BinEntries;
    hide Mem.PrevInuse, Mem.SetHead, Mem.SetFd, Mem.SetBk, Mem.SetPrevSize, Mem.SetFdNext, Mem.SetBkNext, Mem.Head;
    ghost var s := av.S();
    ghost var H' := LastRemainderSound(s, nb);
    var remainderSize := size - nb;
    var remainder := victim + nb;
    var unsorted := Hdr(UNSORTED);
    av.m := av.m.SetFd(unsorted, remainder).SetBk(unsorted, remainder);
    av.m := av.m.SetHead(unsorted, remainder);
    av.m := av.m.SetFd(remainder, unsorted).SetBk(remainder, unsorted);
    if !InSmallRange(remainderSize) {
      av.m := av.m.SetFdNext(remainder, NULL).SetBkNext(remainder, NULL);
    }
    av.m := av.m.SetHead(victim, nb + 1).SetHead(remainder, remainderSize + 1).SetPrevSize(remainder + remainderSize, remainderSize);
    assert av.m == LastRemainderWords(s.m, victim, size, nb);
    OnlyChunk(s);
    OnlyRemainder(s, av.S().(H := H'), victim, nb);
    av.H := H';
    ListedEmpty(s.H, H');
  }

  // ---------------------------------------------------------------- binning

  /** Put the owned small chunk into its bin. */
  method BinSmallChunk(av: MallocState, victim: int, size: int)
    requires av.Ok() && Intact(av.S(), victim) && size == av.H[victim].n && InSmallRange(size)
    modifies av`m, av`H, av`binmap
    ensures av.Ok() && victim in av.H && InBin(av.H, victim, size / 16) && av.H == old(av.H)[victim := av.H[victim]] && av.H[victim].n == size
    ensures LiveOf(av.H) == old(LiveOf(av.H)) && Kept(old(av.m), av.m, LiveOf(av.H))
    ensures av.m.Head(Hdr(UNSORTED)) == old(av.m.Head(Hdr(UNSORTED)))
    ensures BinEntries(av.H, size / 16) == Shelved(old(av.H), BinEntries(old(av.H), size / 16), victim, size)
  {
    hide Sound, Kept, LiveOf, PlacedHeap, Put, BinEntries, Shelved;
    SmallIndex(av.S(), victim);
    var victimIndex := size / 16;
    MarkSound(av.S(), victimIndex);
    av.binmap := Mark(av.binmap, victimIndex);
    ghost var s := av.S();
    var bck := Hdr(victimIndex);
    var fwd := av.m.Fd(bck);
    SmallPlaced(s, victim, victimIndex);
    av.m := av.m.SetBk(victim, bck).SetFd(victim, fwd).SetBk(fwd, victim).SetFd(bck, victim);
    av.H := PlacedHeap(s, victim, victimIndex);
    PlacedHeapAt(s, victim, victimIndex);
    SmallShelved(s, av.S(), victim, victimIndex);
  }

  lemma SmallShelved(s: State, s': State, p: int, b: int)
    requires Sound(s) && Sound(s') && p in s.H && s.H[p].st.Raw? && 1 <= b <= 126 && s'.H == PlacedHeap(s, p, b) && InSmallRange(s.H[p].n)
    ensures BinEntries(s'.H, b) == Shelved(s.H, BinEntries(s.H, b), p, s.H[p].n)
  {
    hide BinEntries;
    SoundBins(s);
    SoundBins(s');
    SoundLists(s);
    BinSpell(s.H, b);
    var k := BinInsert(s, s'.H, p, b, Hdr(b), FrontRank(s.m, s.H, s.base, s.top, b));
    var L := BinEntries(s.H, b);
    CoreLow(s.m, s.H, s.base, s.top);
    assert !InBin(s.H, Hdr(b), b) && Insert(L, 0, p) == [p] + L;
  }

  lemma PlacedHeapAt(s: State, p: int, b: int)
    requires Sound(s) && p in s.H && 1 <= b <= 126
    ensures var H' := PlacedHeap(s, p, b); p in H' && H' == s.H[p := H'[p]] && H'[p].n == s.H[p].n && InBin(H', p, b)
  {}

  lemma SmallIndex(s: State, p: int)
    requires Intact(s, p) && InSmallRange(s.H[p].n)
    ensures 2 <= s.H[p].n / 16 < 64 && s.H[p].n % 16 == 0 && BinIndex(s.H[p].n) == s.H[p].n / 16
  {
    assert Placed(s.H, s.base, s.top, p);
  }

  lemma SmallPlaced(s: State, p: int, b: int)
    requires Intact(s, p) && InSmallRange(s.H[p].n) && b == s.H[p].n / 16 && 2 <= b < 64 && Marked(s.binmap, b)
    ensures var fwd := s.m.Fd(Hdr(b)); var m', H' := LinkWords(s.m, p, Hdr(b), fwd), PlacedHeap(s, p, b);
            Sound(s.(m := m', H := H')) && LiveOf(H') == LiveOf(s.H) && Kept(s.m, m', LiveOf(s.H))
            && m'.Head(Hdr(UNSORTED)) == s.m.Head(Hdr(UNSORTED))
  {
    hide Sound, Placing, LinkWords;
    CoreOfIntact(s, p);
    SmallStores(s, p, b);
    SmallRemainder(s, p, b);
    PlacedSound(s, LinkWords(s.m, p, Hdr(b), s.m.Fd(Hdr(b))), p, b);
  }

  lemma SmallRemainder(s: State, p: int, b: int)
    requires Intact(s, p) && InSmallRange(s.H[p].n) && b == s.H[p].n / 16 && 2 <= b < 64
    ensures LinkWords(s.m, p, Hdr(b), s.m.Fd(Hdr(b))).Head(Hdr(UNSORTED)) == s.m.Head(Hdr(UNSORTED))
  {
    CoreOfIntact(s, p);
    SmallStores(s, p, b);
    PlaceFacts(s.m, s.H, s.base, s.top, p, b);
  }

  lemma CoreOfIntact(s: State, p: int)
    requires Intact(s, p)
    ensures Core(s.m, s.H, s.base, s.top) && Sound(s)
  {}

  lemma SmallStores(s: State, p: int, b: int)
    requires Intact(s, p) && InSmallRange(s.H[p].n) && b == s.H[p].n / 16 && 2 <= b < 64
    ensures Placeable(s.m, s.H, p, b)
    ensures Placing(s.m, LinkWords(s.m, p, Hdr(b), s.m.Fd(Hdr(b))), p, s.H[p].n, Hdr(b), s.m.Fd(Hdr(b)))
  {
    hide TopOk, Marks, Slots, Fresh;
    PlaceFacts(s.m, s.H, s.base, s.top, p, b);
  }

  // ---------------------------------------------------------------- one round of the loop

  /** The only unsorted chunk is the last remainder, and there is more than enough of it for a small
      request. */
  ghost predicate RemainderServes(s: State, nb: int) {
    var p := s.m.Bk(Hdr(UNSORTED));
    InSmallRange(nb) && s.m.Bk(p) == Hdr(UNSORTED) && p == s.m.Head(Hdr(UNSORTED)) && p in s.H && s.H[p].n > nb + MINSIZE
  }

  datatype Outcome = Handed(p: int) | Cached | Stored

  /** What became of the last unsorted chunk. It is cut if it is the only one, the last remainder, and large
      enough; otherwise it has left the list. */
  ghost predicate Rounded(s: State, s': State, nb: int, stash: bool, r: Outcome) {
    var p, t := s.m.Bk(Hdr(UNSORTED)), (nb - MINSIZE) / 16;
    && p in s.H && p in s'.H && (r.Handed? ==> r.p == p)
    && (if RemainderServes(s, nb) then
          r.Handed? && Divided(s.H, s'.H, p, nb) && BinEntries(s'.H, UNSORTED) == [p + nb] && Racked(s.H, s'.H, p, s.H[p].n, false) && s'.m.Head(Hdr(UNSORTED)) == p + nb
        else
          && s'.H == s.H[p := s'.H[p]] && s'.H[p].n == s.H[p].n && s'.m.Head(Hdr(UNSORTED)) == s.m.Head(Hdr(UNSORTED))
          && BinEntries(s.H, UNSORTED) == BinEntries(s'.H, UNSORTED) + [p] && Racked(s.H, s'.H, p, s.H[p].n, r.Stored?)
          && (r.Stored? <==> s.H[p].n != nb) && (r.Stored? ==> InBin(s'.H, p, BinIndex(s.H[p].n)))
          && (r.Cached? <==> s.H[p].n == nb && stash && 0 <= t < |s.slots| && s.slots[t] > 0))
    && (if r.Cached? then EntersFront(s.H, s'.H, TList(t), p) && 0 <= t < |s.slots| && s'.slots == s.slots[t := s.slots[t] - 1]
        else SameListed(s.H, s'.H) && s'.slots == s.slots)
  }

  /** One chunk leaves the unsorted list: it is handed out, put into the thread cache, or binned. */
  method UnsortedRound(av: MallocState, nb: int, stash: bool) returns (r: Outcome)
    requires av.Valid() && av.m.Bk(Hdr(UNSORTED)) != Hdr(UNSORTED) && nb % 16 == 0 && nb >= MINSIZE
    requires stash ==> |av.numSlots| > 0 && (nb - MINSIZE) / 16 < TCACHE_SMALL_BINS
    modifies av`m, av`H, av`binmap, av`numSlots
    ensures av.Valid() && Rounded(old(av.S()), av.S(), nb, stash, r)
    ensures r.Handed? ==> Granted(old(av.H), av.H, r.p, nb) && Kept(old(av.m), av.m, old(LiveOf(av.H))) && av.m.PrevInuse(r.p) && LiveOf(av.H)[r.p] == nb
    ensures !r.Handed? ==> LiveOf(av.H) == old(LiveOf(av.H)) && Kept(old(av.m), av.m, LiveOf(av.H))
    ensures !r.Handed? && InSmallRange(nb) && EmptyBin(old(av.H), nb / 16) ==> EmptyBin(av.H, nb / 16)
  {
    hide Sound, Kept, LiveOf, Put, Intact, EmptyBin, Quiet, BinIndex, BinEntries, SameListed, FastEmpty, EntersFront, Divided;
    ghost var s := av.S();
    UnsortedGuards(s);
    var unsorted := Hdr(UNSORTED);
    var victim := av.m.Bk(unsorted);
    var bck := av.m.Bk(victim);
    var size := av.m.Size(victim);
    var next := victim + size;
    if size <= CHUNK_HDR_SZ || size > av.systemMem {
      assert false; // malloc(): invalid size (unsorted)
    }
    if av.m.Head(next) < CHUNK_HDR_SZ || av.m.Head(next) > av.systemMem {
      assert false; // malloc(): invalid next size (unsorted)
    }
    if av.m.PrevSize(next) - av.m.PrevSize(next) % 8 != size {
      assert false; // malloc(): mismatching next->prev_size (unsorted)
    }
    if av.m.Fd(bck) != victim || av.m.Fd(victim) != unsorted {
      assert false; // malloc(): unsorted double linked list corrupted
    }
    if av.m.PrevInuse(next) {
      assert false; // malloc(): invalid next->prev_inuse (unsorted)
    }
    if InSmallRange(nb) && bck == unsorted && victim == av.m.Head(unsorted) && size > nb + MINSIZE {
      SplitLastRemainder(av, victim, size, nb);
      DividedIn(s.H, av.H, victim, nb);
      DividedRacked(s, av.S(), victim, nb);
      return Handed(victim);
    }
    r := SortLast(av, victim, bck, size, nb, stash);
  }

  lemma DividedRacked(s: State, s': State, p: int, nb: int)
    requires Sound(s) && Sound(s') && Divided(s.H, s'.H, p, nb) && InBin(s.H, p, UNSORTED) && nb > 0
    ensures Racked(s.H, s'.H, p, s.H[p].n, false)
  {
    hide Sound, BinEntries;
    SoundBins(s);
    SoundBins(s');
    forall b | b >= 2 ensures BinEntries(s'.H, b) == BinEntries(s.H, b) {
      BinSame(s.H, s'.H, b);
    }
  }

  /** What was the last unsorted chunk is in bin c, or in none, and that is the only change to the bins. */
  lemma RackedOne(s: State, s1: State, s2: State, p: int, stored: bool)
    requires Sound(s) && Sound(s1) && Sound(s2) && p in s.H && s1.H == s.H[p := Chunk(s.H[p].n, Raw)] && p in s2.H && s2.H == s1.H[p := s2.H[p]]
    requires InBin(s.H, p, UNSORTED) && s2.H[p].n == s.H[p].n
    requires if stored then InBin(s2.H, p, BinIndex(s.H[p].n)) else !s2.H[p].st.Binned?
    requires stored ==> BinEntries(s2.H, BinIndex(s.H[p].n)) == Shelved(s1.H, BinEntries(s1.H, BinIndex(s.H[p].n)), p, s.H[p].n)
    ensures Racked(s.H, s2.H, p, s.H[p].n, stored)
  {
    hide Sound, BinEntries, BinIndex, Shelved;
    SoundBins(s);
    SoundBins(s1);
    SoundBins(s2);
    var n := s.H[p].n;
    forall b | b >= 2 ensures BinEntries(s2.H, b) == if stored && b == BinIndex(n) then Shelved(s.H, BinEntries(s.H, b), p, n) else BinEntries(s.H, b) {
      if stored && b == BinIndex(n) {
        OtherBin(s.H, s1.H, p, b);
        ShelvedSame(s1.H, s.H, b, p, n);
      } else {
        OtherBin(s.H, s2.H, p, b);
      }
    }
  }

  lemma OtherBin(H: Heap, H': Heap, p: int, b: int)
    requires BinRanksDiffer(H) && BinRanksDiffer(H') && p in H && p in H' && H' == H[p := H'[p]] && !InBin(H, p, b) && !InBin(H', p, b)
    ensures BinEntries(H', b) == BinEntries(H, b)
  {
    hide BinEntries;
    forall x ensures (InBin(H, x, b) <==> InBin(H', x, b)) && (InBin(H, x, b) ==> H'[x] == H[x]) {
      assert x != p ==> (x in H <==> x in H');
    }
    BinSame(H, H', b);
  }

  lemma LastIn(s: State)
    requires Sound(s) && s.m.Bk(Hdr(UNSORTED)) != Hdr(UNSORTED)
    ensures InBin(s.H, s.m.Bk(Hdr(UNSORTED)), UNSORTED)
  {
    LastFacts(s, UNSORTED);
  }

  lemma DividedIn(H: Heap, H': Heap, p: int, nb: int)
    requires Divided(H, H', p, nb) && nb > 0
    ensures p in H'
  {}

  /** The last chunk is taken off the list and goes where it belongs. */
  method SortLast(av: MallocState, victim: int, bck: int, size: int, nb: int, stash: bool) returns (r: Outcome)
    requires av.Valid() && av.m.Bk(Hdr(UNSORTED)) == victim != Hdr(UNSORTED) && av.m.Bk(victim) == bck && nb % 16 == 0 && nb >= MINSIZE
    requires stash ==> |av.numSlots| > 0 && (nb - MINSIZE) / 16 < TCACHE_SMALL_BINS
    requires victim in av.H && av.H[victim].n == size && !RemainderServes(av.S(), nb)
    modifies av`m, av`H, av`binmap, av`numSlots
    ensures av.Valid() && Rounded(old(av.S()), av.S(), nb, stash, r)
    ensures r.Handed? ==> Granted(old(av.H), av.H, r.p, nb) && Kept(old(av.m), av.m, old(LiveOf(av.H))) && av.m.PrevInuse(r.p) && LiveOf(av.H)[r.p] == nb
    ensures !r.Handed? ==> LiveOf(av.H) == old(LiveOf(av.H)) && Kept(old(av.m), av.m, LiveOf(av.H))
    ensures !r.Handed? && InSmallRange(nb) && EmptyBin(old(av.H), nb / 16) ==> EmptyBin(av.H, nb / 16)
  {
    hide Sound, Kept, LiveOf, Put, Intact, EmptyBin, Quiet, BinIndex, BinEntries;
    hide SameListed, FastEmpty, EntersFront, Divided, RemainderServes, Racked, Shelved, InBin;
    ghost var s := av.S();
    SlotsLength(s);
    LastIn(s);
    RemovedIntact(s);
    var unsorted := Hdr(UNSORTED);
    av.m := av.m.SetBk(unsorted, bck);
    av.m := av.m.SetFd(bck, unsorted);
    av.H := Removed(s).H;
    ghost var s1 := av.S();
    IntactSize(s1, victim);
    RemovedListed(s);
    ListedEmpty(s.H, s1.H);
    r := SortChunk(av, victim, size, nb, stash);
    SortedLater(s, s1, av.S(), victim, nb, r);
    SortedLists(s, s1, av.S(), victim, nb, r);
    RackedOne(s, s1, av.S(), victim, r.Stored?);
  }

  lemma SortedLists(s: State, s1: State, s2: State, p: int, nb: int, r: Outcome)
    requires Sound(s) && Sound(s1) && Sound(s2) && s.m.Bk(Hdr(UNSORTED)) == p != Hdr(UNSORTED) && SameListed(s.H, s1.H)
    requires p in s.H && p in s1.H && s1.H == s.H[p := s1.H[p]] && p in s2.H && s2.H == s1.H[p := s2.H[p]] && !InBin(s2.H, p, UNSORTED)
    requires if r.Cached? then EntersFront(s1.H, s2.H, TList((nb - MINSIZE) / 16), p) else SameListed(s1.H, s2.H)
    ensures BinEntries(s.H, UNSORTED) == BinEntries(s2.H, UNSORTED) + [p]
    ensures if r.Cached? then EntersFront(s.H, s2.H, TList((nb - MINSIZE) / 16), p) else SameListed(s.H, s2.H)
  {
    hide Sound, SameListed, EntersFront, BinEntries;
    LastGone(s, s2);
    if r.Cached? {
      EntersLater(s, s1, s2, TList((nb - MINSIZE) / 16), p);
    } else {
      SameListedTrans(s.H, s1.H, s2.H);
    }
  }

  /** The last unsorted chunk has left the list. */
  lemma LastGone(s: State, s2: State)
    requires Sound(s) && Sound(s2) && s.m.Bk(Hdr(UNSORTED)) != Hdr(UNSORTED)
    requires var p := s.m.Bk(Hdr(UNSORTED)); p in s.H && p in s2.H && s2.H == s.H[p := s2.H[p]] && !InBin(s2.H, p, UNSORTED)
    ensures BinEntries(s.H, UNSORTED) == BinEntries(s2.H, UNSORTED) + [s.m.Bk(Hdr(UNSORTED))]
  {
    hide Sound, BinEntries;
    LastFacts(s, UNSORTED);
    SoundBins(s);
    SoundBins(s2);
    LastLeaves(s.H, s2.H, UNSORTED, s.m.Bk(Hdr(UNSORTED)));
  }

  /** A chunk changed hands without joining a list, and then joined one. */
  lemma EntersLater(s: State, s1: State, s2: State, l: int, p: int)
    requires Sound(s) && Sound(s1) && SameListed(s.H, s1.H) && EntersFront(s1.H, s2.H, l, p)
    ensures EntersFront(s.H, s2.H, l, p)
  {
    hide Sound, Entries, SameListed;
    SoundLists(s);
    SoundLists(s1);
    forall k ensures Entries(s2.H, k) == if k == l then [p] + Entries(s.H, k) else Entries(s.H, k) {
      EntriesSame(s.H, s1.H, k);
    }
  }

  /** The links tell whether there is just one unsorted chunk. */
  lemma OnlyChunk(s: State)
    requires Sound(s) && s.m.Bk(Hdr(UNSORTED)) != Hdr(UNSORTED)
    ensures var p := s.m.Bk(Hdr(UNSORTED)); p in s.H && InBin(s.H, p, UNSORTED) && (s.m.Bk(p) == Hdr(UNSORTED) <==> BinEntries(s.H, UNSORTED) == [p])
  {
    hide BinEntries;
    var p, u := s.m.Bk(Hdr(UNSORTED)), Hdr(UNSORTED);
    LastFacts(s, UNSORTED);
    SoundBins(s);
    BinSpell(s.H, UNSORTED);
    CoreLow(s.m, s.H, s.base, s.top);
    assert RingAt(s.m, s.H, UNSORTED, p) && !InBin(s.H, u, UNSORTED);
    if s.m.Bk(p) == u {
      forall x ensures x in BinSet(s.H, UNSORTED) <==> x == p {
        assert x != p ==> OrdAt(s.H, x, p);
      }
      OneEntry(s.H, p);
    }
  }

  lemma OneEntry(H: Heap, p: int)
    requires BinRanksDiffer(H) && BinSet(H, UNSORTED) == {p}
    ensures BinEntries(H, UNSORTED) == [p]
  {
    BinEntriesAre(H, UNSORTED, [p]);
  }

  lemma OnlyRemainder(s: State, s2: State, p: int, nb: int)
    requires Sound(s) && Sound(s2) && BinEntries(s.H, UNSORTED) == [p] && Divided(s.H, s2.H, p, nb)
    ensures BinEntries(s2.H, UNSORTED) == [p + nb]
  {
    hide Sound, BinEntries;
    SoundBins(s);
    SoundBins(s2);
    BinSpell(s.H, UNSORTED);
    forall x ensures x in BinSet(s2.H, UNSORTED) <==> x == p + nb {
      assert x != p + nb && InBin(s2.H, x, UNSORTED) ==> InBin(s.H, x, UNSORTED);
    }
    OneEntry(s2.H, p + nb);
  }

  lemma SortedLater(s: State, s1: State, s2: State, p: int, nb: int, r: Outcome)
    requires LiveOf(s1.H) == LiveOf(s.H) && Kept(s.m, s1.m, LiveOf(s.H)) && p in s.H && s1.H == s.H[p := Chunk(s.H[p].n, Raw)]
    requires r.Handed? ==> Granted(s1.H, s2.H, r.p, nb) && Kept(s1.m, s2.m, LiveOf(s1.H))
    requires !r.Handed? ==> LiveOf(s2.H) == LiveOf(s1.H) && Kept(s1.m, s2.m, LiveOf(s2.H))
    requires !r.Handed? && InSmallRange(nb) && EmptyBin(s1.H, nb / 16) ==> EmptyBin(s2.H, nb / 16)
    ensures r.Handed? ==> Granted(s.H, s2.H, r.p, nb) && Kept(s.m, s2.m, LiveOf(s.H))
    ensures !r.Handed? ==> LiveOf(s2.H) == LiveOf(s.H) && Kept(s.m, s2.m, LiveOf(s2.H))
    ensures !r.Handed? && InSmallRange(nb) && EmptyBin(s.H, nb / 16) ==> EmptyBin(s2.H, nb / 16)
  {
    hide LiveOf, Kept;
    KeptTrans(s.m, s1.m, s2.m, LiveOf(s.H));
    if EmptyBin(s.H, nb / 16) {
      forall q ensures !InBin(s1.H, q, nb / 16) {
        assert !InBin(s.H, q, nb / 16);
      }
    }
  }

  /** The owned chunk is handed out if it fits exactly, or put into its bin. */
  method SortChunk(av: MallocState, victim: int, size: int, nb: int, stash: bool) returns (r: Outcome)
    requires av.Ok() && Intact(av.S(), victim) && OnlyRaw(av.H, victim) && ChainHead(av.H, NULL) && av.H[victim].n == size
    requires nb % 16 == 0 && nb >= MINSIZE && (stash ==> |av.numSlots| > 0 && (nb - MINSIZE) / 16 < TCACHE_SMALL_BINS)
    modifies av`m, av`H, av`binmap, av`numSlots
    ensures av.Ok() && Quiet(av.H) && |av.numSlots| == |old(av.numSlots)|
    ensures r.Handed? ==> Granted(old(av.H), av.H, r.p, nb) && Kept(old(av.m), av.m, old(LiveOf(av.H)))
    ensures !r.Handed? ==> LiveOf(av.H) == old(LiveOf(av.H)) && Kept(old(av.m), av.m, LiveOf(av.H))
    ensures r.Cached? <==> size == nb && stash && old(av.numSlots)[(nb - MINSIZE) / 16] > 0
    ensures r.Cached? ==> var t := (nb - MINSIZE) / 16; av.numSlots == old(av.numSlots)[t := old(av.numSlots)[t] - 1] && EntersFront(old(av.H), av.H, TList(t), victim)
    ensures (r.Cached? ==> InList(av.H, victim, TList((nb - MINSIZE) / 16))) && av.m.Head(Hdr(UNSORTED)) == old(av.m.Head(Hdr(UNSORTED)))
    ensures !r.Cached? ==> av.numSlots == old(av.numSlots) && SameListed(old(av.H), av.H)
    ensures FastEmpty(old(av.H), NFASTBINS) ==> FastEmpty(av.H, NFASTBINS)
    ensures !r.Handed? && InSmallRange(nb) && EmptyBin(old(av.H), nb / 16) ==> EmptyBin(av.H, nb / 16)
    ensures r.Handed? ==> r.p == victim && LiveOf(av.H)[victim] == nb && av.m.PrevInuse(victim)
    ensures if r.Stored? then size != nb && InBin(av.H, victim, BinIndex(size)) else size == nb && !av.H[victim].st.Binned?
    ensures r.Stored? ==> BinEntries(av.H, BinIndex(size)) == Shelved(old(av.H), BinEntries(old(av.H), BinIndex(size)), victim, size)
    ensures av.H[victim].n == size && !InBin(av.H, victim, UNSORTED)
    ensures victim in av.H && av.H == old(av.H)[victim := av.H[victim]]
  {
    hide Sound, Kept, LiveOf, Put, Intact, EmptyBin, Quiet, SameListed, FastEmpty;
    ghost var s1 := av.S();
    IntactSize(s1, victim);
    if size == nb {
      r := TakeExact(av, victim, nb, stash);
      StaysEmpty(s1.H, av.H, victim, nb);
      UnlistedSame(s1.H, av.H, victim);
    } else {
      BinIndexRange(size);
      if InSmallRange(size) {
        BinSmallChunk(av, victim, size);
      } else {
        BinLargeChunk(av, victim, size);
      }
      QuietBinned(s1.H, av.H, victim);
      StaysEmpty(s1.H, av.H, victim, nb);
      UnlistedSame(s1.H, av.H, victim);
      return Stored;
    }
  }

  lemma IntactSize(s: State, p: int)
    requires Intact(s, p)
    ensures Sound(s) && p in s.H && s.H[p].n % 16 == 0 && s.H[p].n >= MINSIZE && s.H[p].st.Raw?
  {
    assert Placed(s.H, s.base, s.top, p);
  }

  /** A small request's own bin stays empty: chunks of just its size are not binned. */
  lemma StaysEmpty(H: Heap, H': Heap, p: int, nb: int)
    requires nb % 16 == 0 && p in H' && H' == H[p := H'[p]] && H'[p].n % 16 == 0 && !(H'[p].st.Binned? && H'[p].n == nb)
    requires H'[p].st.Binned? ==> H'[p].st.b == BinIndex(H'[p].n)
    ensures InSmallRange(nb) && EmptyBin(H, nb / 16) ==> EmptyBin(H', nb / 16)
  {
    if InSmallRange(nb) && EmptyBin(H, nb / 16) {
      if !InSmallRange(H'[p].n) {
        LargeBinIndexMonotone(1024, H'[p].n);
      }
      forall q ensures !InBin(H', q, nb / 16) {
        assert !InBin(H, q, nb / 16);
      }
    }
  }

  lemma QuietBinned(H: Heap, H': Heap, p: int)
    requires ChainHead(H, NULL) && OnlyRaw(H, p) && p in H' && H' == H[p := H'[p]] && H'[p].st.Binned?
    ensures Quiet(H')
  {
    forall q ensures !InList(H', q, DETACHED) {
      assert !InList(H, q, DETACHED);
    }
  }

  lemma ExactFacts(s: State, p: int)
    requires Intact(s, p) && OnlyRaw(s.H, p)
    ensures var n := s.H[p].n; var m', H' := s.m.SetPrevInuse(p + n), s.H[p := Chunk(n, Live)];
            && Sound(s.(m := m', H := H')) && NoRaw(H') && LiveOf(H') == LiveOf(s.H)[p := n]
            && p !in LiveOf(s.H) && Kept(s.m, m', LiveOf(s.H)) && SameListed(s.H, H') && p % 16 == 0 && m'.PrevInuse(p)
            && m'.Head(Hdr(UNSORTED)) == s.m.Head(Hdr(UNSORTED))
  {
    hide Links, Marks, Slots, Fresh;
    Occupied(s, p);
    assert Placed(s.H, s.base, s.top, p);
    GiveSound(s, p);
  }

  /** An exact fit: fill the thread cache first, otherwise hand it out. */
  method TakeExact(av: MallocState, victim: int, nb: int, stash: bool) returns (r: Outcome)
    requires av.Ok() && Intact(av.S(), victim) && OnlyRaw(av.H, victim) && ChainHead(av.H, NULL) && av.H[victim].n == nb
    requires stash ==> |av.numSlots| > 0 && (nb - MINSIZE) / 16 < TCACHE_SMALL_BINS
    requires nb % 16 == 0 && nb >= MINSIZE
    modifies av`m, av`H, av`numSlots
    ensures victim in av.H && av.H == old(av.H)[victim := av.H[victim]] && av.H[victim].n == nb && !av.H[victim].st.Binned?
    ensures av.Ok() && Quiet(av.H) && !r.Stored? && |av.numSlots| == |old(av.numSlots)|
    ensures r.Handed? ==> r.p == victim && Granted(old(av.H), av.H, victim, nb) && LiveOf(av.H)[victim] == nb
    ensures r.Handed? ==> Kept(old(av.m), av.m, old(LiveOf(av.H))) && av.m.PrevInuse(victim)
    ensures r.Cached? ==> LiveOf(av.H) == old(LiveOf(av.H)) && Kept(old(av.m), av.m, LiveOf(av.H))
    ensures r.Cached? <==> stash && old(av.numSlots)[(nb - MINSIZE) / 16] > 0
    ensures var t := (nb - MINSIZE) / 16;
            if r.Cached? then av.numSlots == old(av.numSlots)[t := old(av.numSlots)[t] - 1] && InList(av.H, victim, TList(t)) && EntersFront(old(av.H), av.H, TList(t), victim)
            else av.numSlots == old(av.numSlots) && av.H[victim].st.Live?
    ensures av.m.Head(Hdr(UNSORTED)) == old(av.m.Head(Hdr(UNSORTED)))
  {
    hide Sound, Kept, Intact, Mem.SetPrevInuse, EntersFront, FastEmpty;
    ghost var s := av.S();
    ExactFacts(s, victim);
    SlotsLength(s);
    av.m := av.m.SetPrevInuse(victim + nb);
    av.H := av.H[victim := Chunk(nb, Live)];
    ghost var s1 := av.S();
    QuietListed(s.H, s1.H);
    var t := (nb - MINSIZE) / 16;
    if stash && av.numSlots[t] != 0 {
      TcachePut(av, victim, t);
      QuietPut(s1.H, av.H, victim, t);
      EntersLater(s, s1, av.S(), TList(t), victim);
      assert LiveOf(av.H) == LiveOf(s.H);
      KeptTrans(s.m, s1.m, av.m, LiveOf(s.H));
      return Cached;
    }
    return Handed(victim);
  }

  // ---------------------------------------------------------------- the loop

  /** A thread-cache bin with used-up slots has an entry. */
  lemma CachedHead(s: State, t: int)
    requires Sound(s) && 0 <= t < |s.slots| && s.slots[t] < TCACHE_FILL_COUNT
    ensures s.m.e(Cell(TList(t))) != NULL
  {
    var l := TList(t);
    assert Members(s.H, l) != {};
    var x :| x in Members(s.H, l);
    assert IsCell(s.H, l, Cell(l)) && ListAt(s.m, s.H, l, Cell(l));
    assert InList(s.H, x, l) && After(s.H, l, Cell(l), x);
  }

  ghost predicate Drained(H: Heap) {
    forall x {:trigger InBin(H, x, UNSORTED)} :: !InBin(H, x, UNSORTED)
  }

  lemma EmptyDrained(s: State)
    requires Sound(s) && s.m.Bk(Hdr(UNSORTED)) == Hdr(UNSORTED)
    ensures Drained(s.H)
  {
    CoreLow(s.m, s.H, s.base, s.top);
    assert RingAt(s.m, s.H, UNSORTED, Hdr(UNSORTED));
    assert !InBin(s.H, Hdr(UNSORTED), UNSORTED);
  }

  /** The block a call of tcache_get hands out when earlier rounds cached exact fits. */
  method ReturnCached(av: MallocState, nb: int) returns (p: int)
    requires av.Valid() && nb % 16 == 0 && nb >= MINSIZE && (nb - MINSIZE) / 16 < TCACHE_SMALL_BINS
    requires |av.numSlots| == TCACHE_MAX_BINS && av.numSlots[(nb - MINSIZE) / 16] < TCACHE_FILL_COUNT
    modifies av`m, av`H, av`numSlots
    ensures av.Valid() && Granted(old(av.H), av.H, p, nb) && Kept(old(av.m), av.m, old(LiveOf(av.H))) && p != NULL
    ensures LiveOf(av.H)[p] == nb && p in old(av.H) && LeavesFront(old(av.H), av.H, TList((nb - MINSIZE) / 16), p)
    ensures p in av.H && av.H == old(av.H)[p := av.H[p]] && av.H[p].n == old(av.H)[p].n
    ensures BinEntries(av.H, UNSORTED) == BinEntries(old(av.H), UNSORTED) && Racked(old(av.H), av.H, p, nb, false)
    ensures var t := (nb - MINSIZE) / 16; av.numSlots == old(av.numSlots)[t := old(av.numSlots)[t] + 1]
    ensures av.m.Head(Hdr(UNSORTED)) == old(av.m.Head(Hdr(UNSORTED)))
  {
    hide Sound, Kept, LeavesFront, FastEmpty, BinEntries;
    ghost var s := av.S();
    var t := (nb - MINSIZE) / 16;
    CachedHead(s, t);
    var e := TcacheGet(av, t);
    p := e - 16;
    ChunkSize(av.S(), p);
    QuietTake(s.H, av.H, p);
    SoundBins(s);
    SoundBins(av.S());
    forall b ensures BinEntries(av.H, b) == BinEntries(s.H, b) {
      BinSame(s.H, av.H, b);
    }
  }

  /** What a call goes by, with so many chunks binned before. */
  ghost function TaskOf(nb: int, stash: bool, slots: seq<int>, seen: nat, limit: nat): Task {
    Task(nb, Room(stash, slots, (nb - MINSIZE) / 16), seen, limit)
  }

  /** After k chunks, `binned` of which were put into bins, with a reason to go on. */
  ghost predicate Going(s: State, s1: State, w: Task, k: nat, binned: int) {
    Working(s, s1, w, k) && !Full(s.H, Queue(s.H), w, k) && binned == k - |Fitting(s.H, Queue(s.H), k, w.nb)|
  }

  /** After k chunks there is no reason to go on. */
  ghost predicate Over(s: State, s1: State, w: Task, k: nat) {
    Working(s, s1, w, k) && (k == |Queue(s.H)| || Full(s.H, Queue(s.H), w, k))
  }

  /** In terms of links, when the last remainder serves. */
  lemma SplitsServes(s: State, s1: State, w: Task, k: nat)
    requires Sound(s) && Sound(s1) && Working(s, s1, w, k) && s1.m.Bk(Hdr(UNSORTED)) != Hdr(UNSORTED)
    ensures RemainderServes(s1, w.nb) <==> Splits(s, w.nb, k)
    ensures RemainderServes(s1, w.nb) ==> BinEntries(s1.H, UNSORTED) == [s1.m.Bk(Hdr(UNSORTED))]
  {
    hide Sound, BinEntries, Filed;
    OnlyChunk(s1);
    SoundBins(s1);
    BinSpell(s1.H, UNSORTED);
    var p := s1.m.Bk(Hdr(UNSORTED));
    var L := BinEntries(s1.H, UNSORTED);
    assert p in L;
    if |L| == 1 {
      assert L == [] + [p];
      WorkNext(s, s1, w, k, [], p);
    }
  }

  lemma RoundHanded(s: State, s1: State, s2: State, w: Task, k: nat, binned: int, stash: bool, r: Outcome)
    requires Sound(s) && Sound(s1) && Sound(s2) && Going(s, s1, w, k, binned) && s1.m.Bk(Hdr(UNSORTED)) != Hdr(UNSORTED)
    requires Rounded(s1, s2, w.nb, stash, r) && r.Handed? && w.room == Room(stash, s.slots, w.Bin()) && w.nb >= MINSIZE
    requires stash ==> w.Bin() < |s.slots| && w.Bin() < |s1.slots| && s1.slots[w.Bin()] >= 0
    ensures Worked(s, s2, w, r.p)
  {
    hide Sound, BinEntries, SameListed, EntersFront, Working, Worked, Full, Splits, BinIndex, Queue, Fitting;
    SplitsServes(s, s1, w, k);
    if RemainderServes(s1, w.nb) {
      WorkSplit(s, s1, s2, w, k, r.p);
    } else {
      RoomLeft(s, s1, w, k, stash);
      WorkHanded(s, s1, s2, w, k, r.p);
    }
  }

  /** The room that the cache still has is what is left after those already there. */
  lemma RoomLeft(s: State, s1: State, w: Task, k: nat, stash: bool)
    requires Working(s, s1, w, k) && !Full(s.H, Queue(s.H), w, k) && w.room == Room(stash, s.slots, w.Bin())
    requires stash ==> 0 <= w.Bin() < |s.slots| && w.Bin() < |s1.slots| && s1.slots[w.Bin()] >= 0
    ensures |Fitting(s.H, Queue(s.H), k, w.nb)| <= w.room
    ensures if stash then s1.slots[w.Bin()] == w.room - |Fitting(s.H, Queue(s.H), k, w.nb)| && w.room == s.slots[w.Bin()] else w.room == 0
  {
    hide Spread, Entries, BinEntries;
  }

  lemma RoundCached(s: State, s1: State, s2: State, w: Task, k: nat, binned: int, stash: bool)
    requires Sound(s) && Sound(s1) && Sound(s2) && Going(s, s1, w, k, binned) && s1.m.Bk(Hdr(UNSORTED)) != Hdr(UNSORTED)
    requires Rounded(s1, s2, w.nb, stash, Cached) && w.room == Room(stash, s.slots, w.Bin()) && w.nb >= MINSIZE
    requires stash ==> w.Bin() < |s.slots| && w.Bin() < |s1.slots| && s1.slots[w.Bin()] >= 0
    ensures k < |Queue(s.H)| && Going(s, s2, w, k + 1, binned) && Fitting(s.H, Queue(s.H), k + 1, w.nb) != []
  {
    hide Sound, BinEntries, SameListed, EntersFront, Working, Full, Splits, BinIndex, Queue, Fitting;
    SplitsServes(s, s1, w, k);
    RoomLeft(s, s1, w, k, stash);
    QueueNext(s, s1, s2, w, k);
    WorkCached(s, s1, s2, w, k, s1.m.Bk(Hdr(UNSORTED)));
  }

  lemma RoundStored(s: State, s1: State, s2: State, w: Task, k: nat, binned: int, stash: bool)
    requires Sound(s) && Sound(s1) && Sound(s2) && Going(s, s1, w, k, binned) && s1.m.Bk(Hdr(UNSORTED)) != Hdr(UNSORTED)
    requires Rounded(s1, s2, w.nb, stash, Stored)
    ensures k < |Queue(s.H)| && Working(s, s2, w, k + 1)
    ensures var E := Fitting(s.H, Queue(s.H), k + 1, w.nb);
            && E == Fitting(s.H, Queue(s.H), k, w.nb) && binned + 1 == k + 1 - |E|
            && (Full(s.H, Queue(s.H), w, k + 1) <==> binned + 1 >= MAX_ITERS || (w.limit > 0 && E != [] && w.seen + binned + 1 > w.limit))
  {
    hide Sound, BinEntries, SameListed, EntersFront, Working, Splits, BinIndex, Queue;
    SplitsServes(s, s1, w, k);
    QueueNext(s, s1, s2, w, k);
    WorkStored(s, s1, s2, w, k, s1.m.Bk(Hdr(UNSORTED)));
  }

  lemma QueueNext(s: State, s1: State, s2: State, w: Task, k: nat)
    requires Sound(s) && Working(s, s1, w, k) && BinEntries(s1.H, UNSORTED) == BinEntries(s2.H, UNSORTED) + [s1.m.Bk(Hdr(UNSORTED))]
    ensures var p := s1.m.Bk(Hdr(UNSORTED)); k < |Queue(s.H)| && Queue(s.H)[k] == p && p in s.H && p in s1.H && s1.H[p].n == s.H[p].n
  {
    WorkNext(s, s1, w, k, BinEntries(s2.H, UNSORTED), s1.m.Bk(Hdr(UNSORTED)));
  }

  /** The list is empty: all of the queue was looked at. */
  lemma QueueDone(s: State, s1: State, w: Task, k: nat)
    requires Sound(s1) && Working(s, s1, w, k) && s1.m.Bk(Hdr(UNSORTED)) == Hdr(UNSORTED)
    ensures Over(s, s1, w, k)
  {
    hide Sound, BinEntries, Filed, Spread, Full;
    EmptyDrained(s1);
    SoundBins(s1);
    BinSpell(s1.H, UNSORTED);
    assert forall x {:trigger x in BinSet(s1.H, UNSORTED)} :: x in BinSet(s1.H, UNSORTED) ==> InBin(s1.H, x, UNSORTED);
    assert |BinSet(s1.H, UNSORTED)| == 0;
  }

  /** The end of the loop: the newest of the cached chunks is handed out if there is one. */
  method FinishUnsorted(av: MallocState, ghost s: State, ghost w: Task, ghost k: nat, nb: int, returnCached: bool) returns (p: int)
    requires av.Valid() && Over(s, av.S(), w, k) && Sound(s) && nb == w.nb && nb % 16 == 0 && nb >= MINSIZE
    requires LiveOf(av.H) == LiveOf(s.H) && Kept(s.m, av.m, LiveOf(s.H))
    requires returnCached <==> Fitting(s.H, Queue(s.H), k, nb) != []
    requires returnCached ==> w.Bin() < TCACHE_SMALL_BINS && |s.slots| == |av.numSlots| == TCACHE_MAX_BINS && av.numSlots[w.Bin()] < TCACHE_FILL_COUNT
    modifies av`m, av`H, av`numSlots
    ensures av.Valid() && |av.numSlots| == |old(av.numSlots)| && Worked(s, av.S(), w, p) && (!returnCached ==> p == NULL && av.S() == old(av.S()))
    ensures End(s, w, 0) == k && (returnCached ==> Granted(s.H, av.H, p, nb) && Kept(s.m, av.m, LiveOf(s.H)) && LiveOf(av.H)[p] == nb && p in s.H && p != NULL)
  {
    hide Sound, Kept, LiveOf, Working, Worked, Full, Splits, BinIndex, BinEntries, Queue, Fitting, LeavesFront, FastEmpty;
    ghost var s1 := av.S();
    OverEnd(s, s1, w, k);
    p := NULL;
    if returnCached {
      p := ReturnCached(av, nb);
      KeptTrans(s.m, s1.m, av.m, LiveOf(s.H));
      GrantedLive(s.H, s1.H, av.H, p, nb);
    }
    WorkDone(s, s1, av.S(), w, k, p);
  }

  lemma OverEnd(s: State, s1: State, w: Task, k: nat)
    requires Over(s, s1, w, k)
    ensures k <= |Queue(s.H)| && End(s, w, k) == k == End(s, w, 0) && s1.H.Keys == s.H.Keys
  {
    hide Filed, Spread, Full, BinEntries, Splits;
  }

  /** The unsorted loop of `_int_malloc`: a block of just nb bytes, or NULL once the list is empty or
      MAX_ITERS chunks were binned. */
  method UnsortedLoop(av: MallocState, nb: int, stash: bool, unsortedCount0: nat) returns (p: int, unsortedCount: nat)
    requires av.Valid() && nb % 16 == 0 && nb >= MINSIZE
    requires stash ==> |av.numSlots| == TCACHE_MAX_BINS && (nb - MINSIZE) / 16 < TCACHE_SMALL_BINS
    modifies av`m, av`H, av`binmap, av`numSlots
    ensures av.Valid() && |av.numSlots| == |old(av.numSlots)|
    ensures p != NULL ==> Granted(old(av.H), av.H, p, nb) && Kept(old(av.m), av.m, old(LiveOf(av.H))) && LiveOf(av.H)[p] == nb && p in old(av.H)
    ensures p == NULL ==> LiveOf(av.H) == old(LiveOf(av.H)) && Kept(old(av.m), av.m, LiveOf(av.H))
    ensures p == NULL && InSmallRange(nb) && EmptyBin(old(av.H), nb / 16) ==> EmptyBin(av.H, nb / 16)
    ensures p == NULL ==> SameListed(old(av.H), av.H) && av.numSlots == old(av.numSlots)
    ensures var w := TaskOf(nb, stash, old(av.numSlots), unsortedCount0, av.tcacheUnsortedLimit);
            Worked(old(av.S()), av.S(), w, p) && (p == NULL ==> unsortedCount == unsortedCount0 + End(old(av.S()), w, 0))
  {
    hide Sound, Kept, LiveOf, EmptyBin, RemainderServes, BinIndex, BinEntries, SameListed, FastEmpty, Filed;
    hide Spread, Rounded, Working, Worked, Full, Fitting, End, Queue, Granted;
    ghost var s := av.S();
    ghost var w := TaskOf(nb, stash, av.numSlots, unsortedCount0, av.tcacheUnsortedLimit);
    ghost var k: nat := 0;
    KeptRefl(av.m, LiveOf(av.H));
    SlotsLength(s);
    WorkStart(s, w);
    NoneFitting(s, w);
    SameListedRefl(s.H);
    var t := (nb - MINSIZE) / 16;
    var iters := 0;
    var returnCached := false;
    unsortedCount := unsortedCount0;
    while av.m.Bk(Hdr(UNSORTED)) != Hdr(UNSORTED)
      invariant av.Valid() && LiveOf(av.H) == LiveOf(s.H) && Kept(s.m, av.m, LiveOf(s.H)) && 0 <= iters < MAX_ITERS
      invariant |av.numSlots| == |s.slots| && (stash ==> av.numSlots[t] >= 0)
      invariant InSmallRange(nb) && EmptyBin(s.H, nb / 16) ==> EmptyBin(av.H, nb / 16)
      invariant Going(s, av.S(), w, k, iters) && unsortedCount == unsortedCount0 + iters && k <= |Queue(s.H)|
      invariant returnCached <==> Fitting(s.H, Queue(s.H), k, nb) != []
      invariant if returnCached then stash && av.numSlots[t] < TCACHE_FILL_COUNT else SameListed(s.H, av.H) && av.numSlots == s.slots
      decreases MAX_ITERS - iters, if stash then av.numSlots[t] else 0
    {
      ghost var s1 := av.S();
      SlotsBound(s1, t);
      var r := UnsortedRound(av, nb, stash);
      RoundSlots(s1, av.S(), nb, stash, r);
      KeptTrans(s.m, s1.m, av.m, LiveOf(s.H));
      match r {
        case Handed(q) =>
          RoundHanded(s, s1, av.S(), w, k, iters, stash, r);
          GrantedLive(s.H, s1.H, av.H, q, nb);
          HandedLow(av.S(), q);
          HandedIn(s, av.S(), w, q);
          return q, unsortedCount;
        case Cached =>
          RoundCached(s, s1, av.S(), w, k, iters, stash);
          returnCached, k := true, k + 1;
        case Stored =>
          if !returnCached {
            SameListedTrans(s.H, s1.H, av.H);
          }
          RoundStored(s, s1, av.S(), w, k, iters, stash);
          k := k + 1;
          unsortedCount := unsortedCount + 1;
          if returnCached && av.tcacheUnsortedLimit > 0 && unsortedCount > av.tcacheUnsortedLimit {
            p := FinishUnsorted(av, s, w, k, nb, returnCached);
            return;
          }
          iters := iters + 1;
          if iters >= MAX_ITERS {
            break;
          }
      }
    }
    LoopOver(s, av.S(), w, k);
    p := FinishUnsorted(av, s, w, k, nb, returnCached);
  }

  /** Either the list is empty or the loop was left early. */
  lemma LoopOver(s: State, s1: State, w: Task, k: nat)
    requires Sound(s1) && Working(s, s1, w, k) && (Full(s.H, Queue(s.H), w, k) || s1.m.Bk(Hdr(UNSORTED)) == Hdr(UNSORTED))
    ensures Over(s, s1, w, k)
  {
    hide Sound, Working, Full;
    if s1.m.Bk(Hdr(UNSORTED)) == Hdr(UNSORTED) {
      QueueDone(s, s1, w, k);
    }
  }

  lemma NoneFitting(s: State, w: Task)
    ensures |Fitting(s.H, Queue(s.H), 0, w.nb)| == 0
  {}

  /** A slot of the cache was used if a chunk went there, and none otherwise. */
  lemma RoundSlots(s: State, s': State, nb: int, stash: bool, r: Outcome)
    requires Rounded(s, s', nb, stash, r)
    ensures var t := (nb - MINSIZE) / 16;
            if r.Cached? then stash && 0 <= t < |s.slots| && s.slots[t] > 0 && s'.slots == s.slots[t := s.slots[t] - 1]
            else s'.slots == s.slots && SameListed(s.H, s'.H)
  {
    hide SameListed, BinEntries, EntersFront;
  }

  lemma HandedIn(s: State, s': State, w: Task, p: int)
    requires Worked(s, s', w, p) && p != NULL
    ensures p in s.H
  {
    hide Filed, Spread, BinEntries, Full;
    if !Cuts(s, w) {
      var k := End(s, w, 0);
      AllFit(s.H, Queue(s.H), k, w.nb, |Fitting(s.H, Queue(s.H), k, w.nb)| - 1);
    }
  }

  lemma SameListedRefl(H: Heap)
    ensures SameListed(H, H)
  {}

  lemma SlotsBound(s: State, t: int)
    requires Sound(s)
    ensures 0 <= t < |s.slots| ==> 0 <= s.slots[t] <= TCACHE_FILL_COUNT
  {}

  lemma HandedLow(s: State, p: int)
    requires Sound(s) && p in LiveOf(s.H)
    ensures p >= HEAP_MIN
  {
    CoreLow(s.m, s.H, s.base, s.top);
  }

  lemma GrantedLive(H0: Heap, H1: Heap, H2: Heap, p: int, nb: int)
    requires Granted(H1, H2, p, nb) && LiveOf(H0) == LiveOf(H1)
    ensures Granted(H0, H2, p, nb)
  {}
}
