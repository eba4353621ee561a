/** `malloc_consolidate`: every fastbin chunk is merged with its free neighbours and goes to the unsorted
    list or to top. */
module Consolidate {
  import opened Memory
  import opened Heap
  import opened Walk
  import opened Steps
  import opened ListingProofs
  import opened Arena
  import opened Binmap
  import opened Free

  /** H' has the thread-cache lists of H. */
  ghost predicate SameCached(H: Heap, H': Heap) {
    forall x, k {:trigger InList(H', x, k)} :: k >= NFASTBINS ==>
      (InList(H', x, k) <==> InList(H, x, k)) && (InList(H', x, k) ==> H'[x] == H[x])
  }

  /** No fastbin of H' holds a chunk that is not in that fastbin of H. */
  ghost predicate FastSub(H: Heap, H': Heap) {
    forall x, k {:trigger InList(H', x, k)} :: 0 <= k < NFASTBINS && InList(H', x, k) ==> InList(H, x, k) && H'[x] == H[x]
  }

  lemma DetachSound(s: State, l: int)
    requires Sound(s) && Quiet(s.H) && 0 <= l < NFASTBINS && FastEmpty(s.H, l)
    ensures var m', H' := Mem(Put(s.m.e, Cell(l), NULL), s.m.o), Detached(s.H, l);
            && Chain(s.(m := m', H := H'), s.m.e(Cell(l)), l) && LiveOf(H') == LiveOf(s.H) && Kept(s.m, m', LiveOf(s.H))
            && FastEmpty(H', l + 1) && SameCached(s.H, H') && SortedSub(s.H, H') && SameFences(s.H, H')
  {
    var m', H' := Mem(Put(s.m.e, Cell(l), NULL), s.m.o), Detached(s.H, l);
    DetachStep(s.m, m', s.H, s.base, s.top, l);
    forall x, k ensures InList(H', x, k) <==> if k == DETACHED then InList(s.H, x, l) else k != l && InList(s.H, x, k) {
      DetachedInList(s.H, l, k, x);
    }
    forall q | InList(H', q, DETACHED) ensures H'[q].n == 16 * (l + 2) {
      assert InList(s.H, q, l) && SingleOk(s.H, q);
    }
    forall k | k >= NFASTBINS ensures Members(H', k) == Members(s.H, k) {
      forall x ensures x in Members(H', k) <==> x in Members(s.H, k) {
        assert InList(H', x, k) <==> InList(s.H, x, k);
      }
    }
    assert Marks(s.binmap, H') by {
      forall b, x | 2 <= b <= 126 && InBin(H', x, b) ensures Marked(s.binmap, b) {
        assert InBin(s.H, x, b);
      }
    }
    CoreLow(s.m, s.H, s.base, s.top);
    assert NotLive(s.H, NULL);
    TouchesKept(s.m, m', s.H, s.base, s.top, NULL, NULL, NULL, NULL);
    assert Fresh(m', s.mark);
  }

  /** How many chunks are left on the detached chain. */
  ghost function ChainLength(H: Heap): nat {
    |Members(H, DETACHED)|
  }

  lemma ChainShrinks(H: Heap, H': Heap, p: int)
    requires ListedBut(H, H', p) && InList(H, p, DETACHED)
    ensures ChainLength(H') < ChainLength(H)
  {
    assert Members(H', DETACHED) == Members(H, DETACHED) - {p} by {
      forall x ensures x in Members(H', DETACHED) <==> x in Members(H, DETACHED) && x != p {
        assert InList(H', x, DETACHED) <==> InList(H, x, DETACHED) && x != p;
      }
    }
  }

  lemma RoundFrame(H0: Heap, H1: Heap, H2: Heap, p: int, l: int)
    requires SameCached(H0, H1) && FastEmpty(H1, l) && ListedBut(H1, H2, p) && InList(H1, p, DETACHED)
    ensures SameCached(H0, H2) && FastEmpty(H2, l)
  {
    forall x, k | k >= NFASTBINS
      ensures (InList(H2, x, k) <==> InList(H0, x, k)) && (InList(H2, x, k) ==> H2[x] == H0[x])
    {
      assert InList(H2, x, k) <==> InList(H1, x, k) && x != p;
    }
    forall x, k | InList(H2, x, k) ensures !(0 <= k < l) {
      assert InList(H1, x, k);
    }
  }

  /** Empty one fastbin. */
  method ConsolidateBin(av: MallocState, k: int)
    requires av.Steady() && 0 <= k < NFASTBINS && FastEmpty(av.H, k)
    modifies av`m, av`H, av`top
    ensures av.Steady() && FastEmpty(av.H, k + 1) && SameCached(old(av.H), av.H)
    ensures av.top <= old(av.top) && SortedSub(old(av.H), av.H) && SameFences(old(av.H), av.H)
    ensures LiveOf(av.H) == old(LiveOf(av.H)) && Kept(old(av.m), av.m, LiveOf(av.H))
  {
    hide Sound, Kept, LiveOf, Core;
    ghost var s0 := av.S();
    DetachSound(s0, k);
    var p := av.m.e(Cell(k));
    av.m := Mem(Put(av.m.e, Cell(k), NULL), av.m.o);
    av.H := Detached(av.H, k);
    while p != NULL
      invariant Chain(av.S(), p, k) && FastEmpty(av.H, k + 1) && SameCached(s0.H, av.H)
      invariant LiveOf(av.H) == LiveOf(s0.H) && Kept(s0.m, av.m, LiveOf(av.H))
      invariant av.top <= s0.top && SortedSub(s0.H, av.H) && SameFences(s0.H, av.H)
      invariant av.binmap == s0.binmap && av.numSlots == s0.slots && av.base == s0.base
      decreases ChainLength(av.H)
    {
      ghost var s1 := av.S();
      var p0 := p;
      p := ConsolidateChunk(av, p0, k);
      ChainShrinks(s1.H, av.H, p0);
      RoundFrame(s0.H, s1.H, av.H, p0, k + 1);
      SortedSubTrans(s0.H, s1.H, av.H);
      KeptTrans(s0.m, s1.m, av.m, LiveOf(av.H));
    }
  }

  lemma SameCachedTrans(H0: Heap, H1: Heap, H2: Heap)
    requires SameCached(H0, H1) && SameCached(H1, H2)
    ensures SameCached(H0, H2)
  {
    forall x, k | k >= NFASTBINS
      ensures (InList(H2, x, k) <==> InList(H0, x, k)) && (InList(H2, x, k) ==> H2[x] == H0[x])
    {
      assert InList(H2, x, k) <==> InList(H1, x, k);
    }
  }

  /** The address lies in a chunk of a fastbin. */
  ghost predicate InFast(H: Heap, p: int, a: int) {
    p in H && H[p].st.Listed? && 0 <= H[p].st.l < NFASTBINS && p <= a < p + H[p].n
  }

  /** The address lies in an unsorted chunk, or in top. */
  ghost predicate Reclaimed(H: Heap, top: int, a: int) {
    a >= top || exists c {:trigger InBin(H, c, UNSORTED)} :: InBin(H, c, UNSORTED) && c <= a < c + H[c].n
  }

  /** What was in a fastbin is in the unsorted list or in top afterwards: everything else is as it was,
      and nothing is lost. */
  lemma FastReclaimed(s0: State, s1: State, p: int, a: int)
    requires Sound(s0) && Sound(s1) && s1.base == s0.base && InFast(s0.H, p, a)
    requires LiveOf(s1.H) == LiveOf(s0.H) && SameCached(s0.H, s1.H) && SameFences(s0.H, s1.H) && SortedSub(s0.H, s1.H)
    requires FastEmpty(s1.H, NFASTBINS) && Quiet(s1.H)
    ensures Reclaimed(s1.H, s1.top, a)
  {
    hide Links, Marks, Slots, Fresh, TopOk;
    if a < s1.top {
      assert Placed(s0.H, s0.base, s0.top, p);
      var c := WalkFinds(s1.H, s1.base, s1.top, s1.base, a);
      assert c != p ==> Apart(s0.H, c, p);
      ListsOk(s1, c);
      StatusCases(s0.H, s1.H, c);
      assert c == p ==> !InList(s1.H, c, s0.H[p].st.l);
      assert InBin(s1.H, c, UNSORTED);
    }
  }

  lemma ListsOk(s: State, c: int)
    requires Sound(s) && c in s.H
    ensures BinOk(s.H, c) && SingleOk(s.H, c)
  {}

  /** Unless it is unsorted, a chunk after the consolidation is one from before, with the same use. */
  lemma StatusCases(H0: Heap, H1: Heap, c: int)
    requires LiveOf(H1) == LiveOf(H0) && SameCached(H0, H1) && SameFences(H0, H1) && SortedSub(H0, H1)
    requires FastEmpty(H1, NFASTBINS) && Quiet(H1) && c in H1 && SingleOk(H1, c)
    ensures (H1[c].st.Binned? && H1[c].st.b < 2) || (c in H0 && H0[c].n == H1[c].n && (H0[c].st.Live? || H0[c].st.Binned? || H0[c] == H1[c]))
    ensures H1[c].st.Live? ==> c in H0 && H0[c].st.Live?
  {
    match H1[c].st {
      case Live => assert c in LiveOf(H1) && c in LiveOf(H0) && LiveOf(H1)[c] == LiveOf(H0)[c];
      case Raw =>
      case Fence => assert IsFence(H1, c);
      case Gap => assert IsFence(H1, c);
      case Listed(l, r) => assert InList(H1, c, l);
      case Binned(b, r) => assert InBin(H1, c, b);
    }
  }

  /** Tear down the fastbins: afterwards they are empty, no live block has changed, and the thread
      cache is as before. */
  method MallocConsolidate(av: MallocState)
    requires av.Valid()
    modifies av`m, av`H, av`top, av`haveFastchunks
    ensures av.Valid() && !av.haveFastchunks && FastEmpty(av.H, NFASTBINS) && SameCached(old(av.H), av.H)
    ensures av.top <= old(av.top) && SortedSub(old(av.H), av.H) && SameFences(old(av.H), av.H)
    ensures LiveOf(av.H) == old(LiveOf(av.H)) && Kept(old(av.m), av.m, LiveOf(av.H))
    ensures forall p, a {:trigger InFast(old(av.H), p, a)} :: InFast(old(av.H), p, a) ==> Reclaimed(av.H, av.top, a)
  {
    hide Sound, Kept, LiveOf, InFast, Reclaimed;
    ghost var s0 := av.S();
    av.haveFastchunks := false;
    KeptRefl(av.m, LiveOf(av.H));
    var fb := 0;
    while fb < NFASTBINS
      invariant 0 <= fb <= NFASTBINS
      invariant av.Steady() && FastEmpty(av.H, fb) && SameCached(s0.H, av.H) && !av.haveFastchunks
      invariant av.top <= s0.top && SortedSub(s0.H, av.H) && SameFences(s0.H, av.H)
      invariant LiveOf(av.H) == LiveOf(s0.H) && Kept(s0.m, av.m, LiveOf(av.H))
    {
      ghost var s1 := av.S();
      ConsolidateBin(av, fb);
      SameCachedTrans(s0.H, s1.H, av.H);
      SortedSubTrans(s0.H, s1.H, av.H);
      KeptTrans(s0.m, s1.m, av.m, LiveOf(av.H));
      fb := fb + 1;
    }
    forall p, a | InFast(s0.H, p, a) ensures Reclaimed(av.H, av.top, a) {
      FastReclaimed(s0, av.S(), p, a);
    }
  }

  /** The address lies in a binned chunk, or in top. */
  ghost predicate Recycled(H: Heap, top: int, a: int) {
    a >= top || exists c {:trigger InStock(H, c)} :: InStock(H, c) && c <= a < c + H[c].n
  }

  ghost predicate InStock(H: Heap, x: int) {
    x in H && H[x].st.Binned?
  }

  /** What block `p` occupied is in the bins or in top once the block is gone, if no list and no gap took it. */
  lemma BlockRecycled(s0: State, s1: State, p: int, a: int)
    requires Sound(s0) && Sound(s1) && s1.base == s0.base && p in LiveOf(s0.H) && p <= a < p + LiveOf(s0.H)[p]
    requires LiveOf(s1.H) == LiveOf(s0.H) - {p} && SameCached(s0.H, s1.H) && SameFences(s0.H, s1.H) && FastSub(s0.H, s1.H)
    requires Quiet(s1.H)
    ensures Recycled(s1.H, s1.top, a)
  {
    hide Links, Marks, Slots, Fresh, TopOk;
    if a < s1.top {
      assert Placed(s0.H, s0.base, s0.top, p);
      var c := WalkFinds(s1.H, s1.base, s1.top, s1.base, a);
      ListsOk(s1, c);
      UseCases(s0.H, s1.H, c);
      assert c != p ==> Apart(s0.H, c, p);
      assert c !in LiveOf(s1.H) || c != p;
      assert InStock(s1.H, c);
    }
  }

  /** Unless it is binned, a chunk of the later heap is one of the earlier, with the same use. */
  lemma UseCases(H0: Heap, H1: Heap, c: int)
    requires SameCached(H0, H1) && SameFences(H0, H1) && FastSub(H0, H1) && Quiet(H1) && c in H1 && SingleOk(H1, c)
    requires forall x {:trigger x in LiveOf(H1)} :: x in LiveOf(H1) ==> x in LiveOf(H0) && LiveOf(H1)[x] == LiveOf(H0)[x]
    ensures H1[c].st.Binned? || (c in H0 && H0[c].n == H1[c].n && (H0[c].st.Live? <==> H1[c].st.Live?))
  {
    match H1[c].st {
      case Live => assert c in LiveOf(H1);
      case Raw =>
      case Fence => assert IsFence(H1, c);
      case Gap => assert IsFence(H1, c);
      case Listed(l, r) => assert InList(H1, c, l);
      case Binned(b, r) =>
    }
  }

  lemma KeptRefl(m: Mem, L: map<int, int>)
    ensures Kept(m, m, L)
  {
    forall p | p in L ensures SameUser(m, m, p, L[p]) {}
  }
}
