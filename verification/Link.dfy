/** Putting a chunk the operation owns into a bin, whatever the order of the stores. */
module LinkProofs {
  import opened Sizes
  import opened Memory
  import opened Heap
  import opened RingProofs
  import opened NextSizeProofs
  import opened LayoutProofs
  import opened Steps
  import opened UnlinkProofs

  /** `m'` differs from `m` at most in the words at `A` (outside chunk interiors), the nextsize words
      at `N`, the fd word of `bck` and the bk word of `fwd`. */
  ghost predicate Relinked(m: Mem, m': Mem, H: Heap, bck: int, fwd: int, A: set<int>, N: set<int>) {
    && (forall a :: a in A ==> Outside(H, a))
    && (forall a :: a in N ==> a - 32 in H && !H[a - 32].st.Raw? && H[a - 32].n >= 1024)
    && (forall a {:trigger m'.e(a)} :: a !in A && a !in N && a != bck + 16 ==> m'.e(a) == m.e(a))
    && (forall a {:trigger m'.o(a)} :: a !in A && a !in N && a != fwd + 16 ==> m'.o(a) == m.o(a))
  }

  lemma RelinkedFrames(m: Mem, m': Mem, H: Heap, base: int, top: int, b0: int, bck: int, fwd: int, A: set<int>, N: set<int>)
    requires Core(m, H, base, top) && Relinked(m, m', H, bck, fwd, A, N)
    requires 1 <= b0 <= 126 && Node(H, bck, b0) && Node(H, fwd, b0)
    ensures CellWordsSame(m, m', H)
    ensures forall b, x {:trigger Node(H, x, b)} :: 1 <= b <= 127 && Node(H, x, b) ==>
        (x != fwd ==> m'.Bk(x) == m.Bk(x)) && (x != bck ==> m'.Fd(x) == m.Fd(x))
    ensures forall b, x {:trigger InBin(H, x, b)} :: InBin(H, x, b) && !InSmallRange(H[x].n) && x + 32 !in N ==>
        m'.FdNext(x) == m.FdNext(x) && m'.BkNext(x) == m.BkNext(x)
  {
    CoreLow(m, H, base, top);
    forall a | a in N ensures a >= HEAP_MIN {
      assert Placed(H, base, top, a - 32);
    }
    forall b, x | 1 <= b <= 127 && Node(H, x, b) ensures x + 16 !in A && x + 16 !in N {
      if x + 16 in N {
        LinkOffset(H, base, top, x - 16, x, b);
      }
      if InBin(H, x, b) {
        assert BinOk(H, x) && (x + 16 in A ==> OutOf(H, x, x + 16));
      }
    }
    forall b, x | InBin(H, x, b) && !InSmallRange(H[x].n)
      ensures x + 32 !in A && x + 32 != bck + 16 && x + 32 != fwd + 16
    {
      assert x + 32 in A ==> OutOf(H, x, x + 32);
      NodeOffset(m, H, base, top, bck, x, b0);
      NodeOffset(m, H, base, top, fwd, x, b0);
    }
    forall l, x | InList(H, x, l) ensures x + 16 !in A && x + 16 !in N && x != bck {
      assert Placed(H, base, top, x) && (x + 16 in A ==> OutOf(H, x, x + 16));
      if x + 16 in N {
        Within(H, base, top, x - 16, x);
      }
    }
  }

  /** The boundary words an insertion may write: the head of `p` and the head and footer behind it. */
  ghost predicate Tagged(m: Mem, m': Mem, H: Heap, p: int)
    requires p in H
  {
    var q := p + H[p].n;
    && m'.Head(p) == H[p].n + 1
    && q in H && !H[q].st.Raw? && m'.PrevSize(q) == H[p].n && m'.Head(q) == H[q].n
    && (m.Head(q) == H[q].n || !H[q].st.Binned?)
  }

  ghost predicate Apt(H: Heap, p: int, b: int)
    requires p in H
  {
    H[p].st.Raw? && H[p].n >= MINSIZE && 1 <= b <= 126 && (b == UNSORTED || b == BinIndex(H[p].n))
  }

  lemma RelinkedTags(m: Mem, m': Mem, H: Heap, H': Heap, base: int, top: int, p: int, b: int, r: real,
                     bck: int, fwd: int, A: set<int>, N: set<int>)
    requires Core(m, H, base, top) && Relinked(m, m', H, bck, fwd, A, N)
    requires p in H && Apt(H, p, b) && With(H, H', p, b, r) && Node(H, bck, b) && Node(H, fwd, b)
    requires Tagged(m, m', H, p) && forall a :: a in A && a in H ==> a == p || a == p + H[p].n
    ensures Body(m', H', base, top)
  {
    var q := p + H[p].n;
    forall x | x in H && x != p && x != q ensures m'.Head(x) == m.Head(x) && m'.PrevSize(x) == m.PrevSize(x) {
      BoundaryOffset(m, H, base, top, x, bck, b);
      BoundaryOffset(m, H, base, top, x, fwd, b);
      assert Placed(H, base, top, x);
      if x in N {
        Within(H, base, top, x - 32, x);
      }
    }
    assert RawBefore(H, q);
    TagsLoose(m, m', H, base, top);
    ToBinned(m', H, H', base, top, p);
  }

  /** Insertion into the unsorted bin or a small bin. */
  lemma BinStep(m: Mem, m': Mem, H: Heap, H': Heap, base: int, top: int, p: int, b: int, r: real,
                bck: int, fwd: int, A: set<int>)
    requires Core(m, H, base, top) && Relinked(m, m', H, bck, fwd, A, {})
    requires p in H && Apt(H, p, b) && b < 64 && With(H, H', p, b, r) && Slot(m, H, b, bck, fwd, r)
    requires m'.Fd(p) == fwd && m'.Bk(p) == bck && m'.Fd(bck) == p && m'.Bk(fwd) == p
    requires !InSmallRange(H[p].n) ==> m'.FdNext(p) == NULL && m'.BkNext(p) == NULL
    requires Tagged(m, m', H, p) && forall a :: a in A && a in H ==> a == p || a == p + H[p].n
    ensures Core(m', H', base, top)
  {
    CoreLow(m, H, base, top);
    assert RingAt(m, H, b, bck);
    RelinkedFrames(m, m', H, base, top, b, bck, fwd, A, {});
    RelinkedTags(m, m', H, H', base, top, p, b, r, bck, fwd, A, {});
    InsertOrdered(m, H, H', p, b, bck, fwd, r);
    InsertRing(m, m', H, H', p, b, bck, fwd, r);
    ListsFrame(m, m', H, H');
    BinIndexRange(H[p].n);
    PlainRing(m, m', H, H', p, b, r);
  }

  lemma PlainRing(m: Mem, m': Mem, H: Heap, H': Heap, p: int, b: int, r: real)
    requires NextSizes(m, H) && Ordered(H) && With(H, H', p, b, r) && NextWordsSame(m, m', H)
    requires b == UNSORTED || InSmallRange(H[p].n)
    requires b < 64 && (!InSmallRange(H[p].n) ==> m'.FdNext(p) == NULL && m'.BkNext(p) == NULL)
    ensures NextSizes(m', H')
  {
    forall c, x | InBin(H', x, c) && !InSmallRange(H'[x].n) ensures NextSizeAt(m', H', c, x) {
      NextSizeAddPlain(m, m', H, H', p, b, r, p, c, x);
    }
  }

  /** Insertion into a large bin, given that the nextsize ring was updated for it. */
  lemma LargeBinStep(m: Mem, m': Mem, H: Heap, H': Heap, base: int, top: int, p: int, b: int, r: real,
                     bck: int, fwd: int, A: set<int>, N: set<int>)
    requires Core(m, H, base, top) && Relinked(m, m', H, bck, fwd, A, N)
    requires p in H && Apt(H, p, b) && With(H, H', p, b, r) && Slot(m, H, b, bck, fwd, r)
    requires InBin(H, bck, b) ==> H[bck].n >= H[p].n
    requires InBin(H, fwd, b) ==> H[p].n >= H[fwd].n
    requires m'.Fd(p) == fwd && m'.Bk(p) == bck && m'.Fd(bck) == p && m'.Bk(fwd) == p
    requires Tagged(m, m', H, p) && forall a :: a in A && a in H ==> a == p || a == p + H[p].n
    requires NextSizes(m', H')
    ensures Core(m', H', base, top)
  {
    CoreLow(m, H, base, top);
    assert RingAt(m, H, b, bck);
    RelinkedFrames(m, m', H, base, top, b, bck, fwd, A, N);
    RelinkedTags(m, m', H, H', base, top, p, b, r, bck, fwd, A, N);
    InsertOrdered(m, H, H', p, b, bck, fwd, r);
    InsertRing(m, m', H, H', p, b, bck, fwd, r);
    ListsFrame(m, m', H, H');
  }
}
