/** The whole invariant under each elementary step: relinking, taking over, splitting and joining
    chunks. `Core` is what holds between the steps of every arena operation. */
module Steps {
  import opened Sizes
  import opened Memory
  import opened Heap
  import opened RingProofs
  import opened LayoutProofs

  ghost predicate Core(m: Mem, H: Heap, base: int, top: int) {
    base >= HEAP_MIN && Body(m, H, base, top) && Links(m, H)
  }

  lemma CoreLow(m: Mem, H: Heap, base: int, top: int)
    requires base >= HEAP_MIN && Tiled(H, base, top)
    ensures Low(H)
  {
    forall p | p in H ensures p >= HEAP_MIN {
      assert Placed(H, base, top, p);
    }
  }

  // ---------------------------------------------------------------- stores outside chunk interiors

  ghost predicate OutOf(H: Heap, q: int, a: int) {
    q in H && (H[q].st.Binned? || H[q].st.Listed?) ==> a <= q || q + H[q].n <= a
  }

  /** `a` is above the arena's tables and not strictly inside any chunk that is on a list. */
  ghost predicate Outside(H: Heap, a: int) {
    a >= HEAP_MIN && forall q {:trigger OutOf(H, q, a)} :: OutOf(H, q, a)
  }

  ghost predicate SameOff(m: Mem, m': Mem, A: set<int>) {
    forall a {:trigger m'.e(a)} {:trigger m'.o(a)} :: a !in A ==> m'.e(a) == m.e(a) && m'.o(a) == m.o(a)
  }

  lemma BoundaryOutside(H: Heap, base: int, top: int, a: int)
    requires base >= HEAP_MIN && Tiled(H, base, top) && (a in H || (a == top && top >= base))
    ensures Outside(H, a)
  {
    if a in H { assert Placed(H, base, top, a); }
    forall q ensures OutOf(H, q, a) {
      if q in H && q != a {
        assert Placed(H, base, top, q);
        assert Apart(H, q, a);
      }
    }
  }

  lemma RawOutside(H: Heap, base: int, top: int, p: int, a: int)
    requires base >= HEAP_MIN && Tiled(H, base, top) && p in H && (H[p].st.Raw? || H[p].st.Live?) && p <= a <= p + H[p].n
    ensures Outside(H, a)
  {
    assert Placed(H, base, top, p);
    forall q ensures OutOf(H, q, a) {
      if q in H && q != p {
        assert Apart(H, q, p);
      }
    }
  }

  lemma LooseLinks(m: Mem, m': Mem, H: Heap, base: int, top: int, A: set<int>)
    requires base >= HEAP_MIN && Tiled(H, base, top) && Links(m, H)
    requires SameOff(m, m', A) && forall a :: a in A ==> Outside(H, a)
    ensures RingWordsSame(m, m', H) && NextWordsSame(m, m', H) && CellWordsSame(m, m', H)
  {
    forall b, x | 1 <= b <= 127 && Node(H, x, b) ensures x + 16 !in A {
      if InBin(H, x, b) {
        assert Placed(H, base, top, x) && (x + 16 in A ==> OutOf(H, x, x + 16));
      }
    }
    forall b, x | InBin(H, x, b) && !InSmallRange(H[x].n) ensures x + 32 !in A {
      assert x + 32 in A ==> OutOf(H, x, x + 32);
    }
    forall l, x | InList(H, x, l) ensures x + 16 !in A {
      assert Placed(H, base, top, x) && (x + 16 in A ==> OutOf(H, x, x + 16));
    }
  }

  lemma LooseStores(m: Mem, m': Mem, H: Heap, base: int, top: int, A: set<int>)
    requires Core(m, H, base, top) && SameOff(m, m', A) && (forall a :: a in A ==> Outside(H, a))
    requires TagWordsLoose(m, m', H)
    ensures Core(m', H, base, top)
  {
    LooseLinks(m, m', H, base, top, A);
    TagsLoose(m, m', H, base, top);
    SameHeapFrames(m, m', H, H);
  }

  lemma SameHeapFrames(m: Mem, m': Mem, H: Heap, H': Heap)
    requires Links(m, H) && SameBinned(H, H') && SameListed(H, H')
    requires RingWordsSame(m, m', H) && NextWordsSame(m, m', H) && CellWordsSame(m, m', H)
    ensures Links(m', H')
  {
    OrderedFrame(H, H');
    RingsFrame(m, m', H, H');
    NextSizesFrame(m, m', H, H');
    ListsFrame(m, m', H, H');
  }

  // ---------------------------------------------------------------- steps that only change the ghost heap

  lemma JoinStep(m: Mem, H: Heap, base: int, top: int, p: int, q: int)
    requires Core(m, H, base, top) && p in H && q in H && q == p + H[p].n && H[p].st.Raw? && H[q].st.Raw?
    ensures Core(m, Joined(H, p, q), base, top)
  {
    Join(m, H, base, top, p, q);
    SameHeapFrames(m, m, H, Joined(H, p, q));
  }

  lemma SplitStep(m: Mem, H: Heap, base: int, top: int, p: int, k: int)
    requires Core(m, H, base, top) && p in H && H[p].st.Raw? && k % 16 == 0 && 16 <= k <= H[p].n - 16
    ensures p + k !in H && Core(m, Cut(H, p, k), base, top)
  {
    Split(m, H, base, top, p, k);
    SameHeapFrames(m, m, H, Cut(H, p, k));
  }

  lemma AbsorbStep(m: Mem, H: Heap, base: int, top: int, p: int)
    requires Core(m, H, base, top) && p in H && H[p].st.Raw? && p + H[p].n == top
    ensures Core(m, Dropped(H, p), base, p)
  {
    Absorb(m, H, base, top, p);
    SameHeapFrames(m, m, H, Dropped(H, p));
  }

  lemma CarveStep(m: Mem, H: Heap, base: int, top: int, k: int)
    requires Core(m, H, base, top) && base <= top && top % 16 == 0 && k % 16 == 0 && k >= 16
    ensures top !in H && Core(m, Carved(H, top, k), base, top + k)
  {
    Carve(m, H, base, top, k);
    SameHeapFrames(m, m, H, Carved(H, top, k));
  }

  lemma TakeStep(m: Mem, H: Heap, base: int, top: int, p: int)
    requires Core(m, H, base, top) && p in H && H[p].st.Live?
    requires m.Head(p) == H[p].n + 1 || RawBefore(H, p)
    ensures Core(m, H[p := Chunk(H[p].n, Raw)], base, top)
  {
    ToRaw(m, H, H[p := Chunk(H[p].n, Raw)], base, top, p);
    SameHeapFrames(m, m, H, H[p := Chunk(H[p].n, Raw)]);
  }

  lemma GiveStep(m: Mem, H: Heap, base: int, top: int, p: int)
    requires Core(m, H, base, top) && p in H && H[p].st.Raw? && H[p].n >= MINSIZE
    requires m.Head(p) == H[p].n + 1
    requires var q := p + H[p].n; q == top || (q in H && (H[q].st.Raw? || m.Head(q) == H[q].n + 1))
    ensures Core(m, H[p := Chunk(H[p].n, Live)], base, top)
  {
    FromRaw(m, H, H[p := Chunk(H[p].n, Live)], base, top, p);
    SameHeapFrames(m, m, H, H[p := Chunk(H[p].n, Live)]);
  }
}
