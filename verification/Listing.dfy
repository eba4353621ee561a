/** The whole invariant when chunks move between the client and a singly linked list, and when
    malloc_consolidate detaches a fastbin and works through it. */
module ListingProofs {
  import opened Sizes
  import opened Memory
  import opened Protect
  import opened Heap
  import opened RingProofs
  import opened ListProofs
  import opened LayoutProofs
  import opened Steps

  /** `m'` differs from `m` at most in the link word at `a`, and in the first two user words of `p`. */
  ghost predicate Relisted(m: Mem, m': Mem, a: int, p: int) {
    && (forall x {:trigger m'.e(x)} :: x != a && x != p + 16 ==> m'.e(x) == m.e(x))
    && (forall x {:trigger m'.o(x)} :: x != p + 16 ==> m'.o(x) == m.o(x))
  }

  lemma RelistedFrames(m: Mem, m': Mem, H: Heap, base: int, top: int, l: int, a: int, p: int)
    requires Core(m, H, base, top) && Relisted(m, m', a, p) && IsCell(H, l, a) && l < 86
    requires p in H && (H[p].st.Live? || H[p].st.Listed?)
    ensures RingWordsSame(m, m', H) && NextWordsSame(m, m', H) && TagWordsSame(m, m', H)
    ensures top >= base ==> m'.Head(top) == m.Head(top)
  {
    CoreLow(m, H, base, top);
    assert Placed(H, base, top, p);
    forall b, x | 1 <= b <= 127 && Node(H, x, b) ensures x != p && x + 16 != a {
    }
    forall b, x | InBin(H, x, b) && !InSmallRange(H[x].n) ensures x + 32 != p + 16 && x + 32 != a {
      CellInside(H, base, top, l, a, x);
      assert Apart(H, x, p);
    }
    forall x | x in H ensures x != p + 16 && x != a {
      CellInside(H, base, top, l, a, x);
      assert Placed(H, base, top, x);
      if x != p { assert Apart(H, x, p); }
    }
    CellInside(H, base, top, l, a, p);
  }

  lemma CellInside(H: Heap, base: int, top: int, l: int, a: int, x: int)
    requires base >= HEAP_MIN && Tiled(H, base, top) && IsCell(H, l, a) && l < 86 && x in H
    ensures a == x + 16 || a < x || x + H[x].n < a || (a == Cell(l) && a < HEAP_MIN)
    ensures a != x && (H[x].st.Binned? ==> a < x || x + H[x].n < a)
    ensures top >= base ==> a != top
  {
    assert Placed(H, base, top, x);
    if a != Cell(l) {
      assert Placed(H, base, top, a - 16);
      if a - 16 != x { assert Apart(H, a - 16, x); }
    }
  }

  lemma PutStep(m: Mem, m': Mem, H: Heap, H': Heap, base: int, top: int, p: int, l: int, a: int, r: real)
    requires Core(m, H, base, top) && p in H && H[p].st.Live? && Listing(H, H', p, l, r)
    requires Behind(m, H, l, a, r) && ListSize(l, H[p].n)
    requires InList(H, a - 16, l) ==> H[a - 16].n <= H[p].n
    requires var v := Pointee(m, l, a); v != NULL && InList(H, Named(l, v), l) ==> H[p].n <= H[Named(l, v)].n
    requires Pointee(m', l, a) == Link(l, p) && Pointee(m', l, p + 16) == Pointee(m, l, a)
    requires Relisted(m, m', a, p)
    ensures Core(m', H', base, top) && TagWordsSame(m, m', H)
    ensures top >= base ==> m'.Head(top) == m.Head(top)
  {
    CoreLow(m, H, base, top);
    RelistedFrames(m, m', H, base, top, l, a, p);
    Reuse(m, H, H', base, top, p);
    TagsFrame(m, m', H', base, top);
    OrderedFrame(H, H');
    RingsFrame(m, m', H, H');
    NextSizesFrame(m, m', H, H');
    assert CellsSameBut(m, m', H, a);
    InsertList(m, m', H, H', p, l, a, r);
  }

  lemma GetStep(m: Mem, m': Mem, H: Heap, H': Heap, base: int, top: int, p: int, l: int, a: int)
    requires Core(m, H, base, top) && InList(H, p, l) && H' == H[p := Chunk(H[p].n, Live)]
    requires 0 <= l < 86 && IsCell(H, l, a)
    requires Pointee(m, l, a) == Link(l, p) && Pointee(m', l, a) == Pointee(m, l, p + 16)
    requires Relisted(m, m', a, p) && (a != p + 16 ==> m'.Fd(p) == m.Fd(p))
    ensures Core(m', H', base, top) && TagWordsSame(m, m', H)
    ensures top >= base ==> m'.Head(top) == m.Head(top)
  {
    CoreLow(m, H, base, top);
    RelistedFrames(m, m', H, base, top, l, a, p);
    Reuse(m, H, H', base, top, p);
    TagsFrame(m, m', H', base, top);
    OrderedFrame(H, H');
    RingsFrame(m, m', H, H');
    NextSizesFrame(m, m', H, H');
    assert CellsSameBut(m, m', H, a);
    RemoveList(m, m', H, H', p, l, a);
  }

  // ---------------------------------------------------------------- detaching a fastbin

  ghost function Detached(H: Heap, l: int): Heap {
    map x | x in H :: if InList(H, x, l) then Chunk(H[x].n, Listed(DETACHED, H[x].st.r)) else H[x]
  }

  /** `p` is the first chunk of the detached chain, or the chain is empty and `p` is NULL. */
  ghost predicate ChainHead(H: Heap, p: int) {
    if p == NULL then forall q {:trigger InList(H, q, DETACHED)} :: !InList(H, q, DETACHED)
    else InList(H, p, DETACHED)
         && forall q {:trigger InList(H, q, DETACHED)} :: InList(H, q, DETACHED) ==> H[p].st.r <= H[q].st.r
  }

  lemma DetachedInList(H: Heap, l: int, k: int, x: int)
    requires 0 <= l && ChainHead(H, NULL)
    ensures InList(Detached(H, l), x, k) <==> if k == DETACHED then InList(H, x, l) else k != l && InList(H, x, k)
    ensures InList(Detached(H, l), x, k) ==> Detached(H, l)[x].st.r == H[x].st.r
  {
    assert !InList(H, x, DETACHED);
  }

  lemma DetachStep(m: Mem, m': Mem, H: Heap, base: int, top: int, l: int)
    requires Core(m, H, base, top) && 0 <= l < NFASTBINS && ChainHead(H, NULL)
    requires m' == Mem(Put(m.e, Cell(l), NULL), m.o)
    ensures Core(m', Detached(H, l), base, top)
    ensures ChainHead(Detached(H, l), m.e(Cell(l))) && m'.o == m.o
  {
    var H' := Detached(H, l);
    CoreLow(m, H, base, top);
    forall x | x in H' ensures Placed(H', base, top, x) && TagAt(m', H', top, x) {
      assert Placed(H, base, top, x);
      DetachTag(m, m', H, base, top, l, x);
    }
    forall x, y | x != y ensures Apart(H', x, y) {
      assert Apart(H, x, y);
    }
    OrderedFrame(H, H');
    RingsFrame(m, m', H, H');
    NextSizesFrame(m, m', H, H');
    DetachLists(m, m', H, l);
    DetachHead(m, H, l);
  }

  lemma DetachTag(m: Mem, m': Mem, H: Heap, base: int, top: int, l: int, x: int)
    requires Core(m, H, base, top) && 0 <= l < NFASTBINS && x in H
    requires m' == Mem(Put(m.e, Cell(l), NULL), m.o)
    ensures TagAt(m', Detached(H, l), top, x)
  {
    var H' := Detached(H, l);
    assert TagAt(m, H, top, x) && Placed(H, base, top, x);
    if RawBefore(H, x) {
      var d :| d in H && H[d].st.Raw? && d + H[d].n == x;
      assert H'[d].st.Raw? && d + H'[d].n == x;
    }
  }

  lemma DetachHead(m: Mem, H: Heap, l: int)
    requires Lists(m, H) && Low(H) && 0 <= l < NFASTBINS && ChainHead(H, NULL)
    ensures ChainHead(Detached(H, l), m.e(Cell(l)))
  {
    var p := m.e(Cell(l));
    assert ListAt(m, H, l, Cell(l)) && IsCell(H, l, Cell(l));
    DetachedInList(H, l, DETACHED, p);
    forall q | InList(Detached(H, l), q, DETACHED) ensures p != NULL && H[p].st.r <= H[q].st.r {
      DetachedInList(H, l, DETACHED, q);
      assert After(H, l, Cell(l), q);
    }
  }

  lemma DetachLists(m: Mem, m': Mem, H: Heap, l: int)
    requires Lists(m, H) && Low(H) && 0 <= l < NFASTBINS && ChainHead(H, NULL)
    requires m' == Mem(Put(m.e, Cell(l), NULL), m.o)
    ensures Lists(m', Detached(H, l))
  {
    var H' := Detached(H, l);
    forall p | p in H' ensures SingleOk(H', p) {
      assert SingleOk(H, p);
    }
    forall p, q | p != q ensures SingleOrd(H', p, q) {
      assert SingleOrd(H, p, q) && !InList(H, p, DETACHED) && !InList(H, q, DETACHED);
    }
    forall k, a | DETACHED <= k < 86 && IsCell(H', k, a) ensures ListAt(m', H', k, a) {
      DetachListAt(m, m', H, l, k, a);
    }
  }

  lemma DetachListAt(m: Mem, m': Mem, H: Heap, l: int, k: int, a: int)
    requires Lists(m, H) && Low(H) && 0 <= l < NFASTBINS && ChainHead(H, NULL)
    requires m' == Mem(Put(m.e, Cell(l), NULL), m.o)
    requires DETACHED <= k < 86 && IsCell(Detached(H, l), k, a)
    ensures ListAt(m', Detached(H, l), k, a)
  {
    var H' := Detached(H, l);
    var old_k := if k == DETACHED then l else k;
    DetachedInList(H, l, k, a - 16);
    if k == l {
      forall q ensures !InList(H', q, l) {
        DetachedInList(H, l, l, q);
      }
    } else {
      assert ListAt(m, H, old_k, a);
      assert InList(H, a - 16, old_k) ==> a != Cell(l) && a != Cell(k) && a > 0;
      assert Pointee(m', k, a) == Pointee(m, old_k, a);
      var s := Named(k, Pointee(m, old_k, a));
      DetachedInList(H, l, k, s);
      forall q | InList(H', q, k) ensures InList(H, q, old_k) && H'[q].st.r == H[q].st.r && (After(H', k, a, q) <==> After(H, old_k, a, q)) {
        DetachedInList(H, l, k, q);
      }
    }
  }

  /** The operation takes over the first chunk of the detached chain; the next one becomes its head. */
  lemma ChainStep(m: Mem, H: Heap, H': Heap, base: int, top: int, p: int)
    requires Core(m, H, base, top) && p != NULL && ChainHead(H, p)
    requires m.Head(p) == H[p].n + 1 || RawBefore(H, p)
    requires H' == H[p := Chunk(H[p].n, Raw)]
    ensures Core(m, H', base, top) && ChainHead(H', Mask(p + 16, m.Fd(p)))
  {
    CoreLow(m, H, base, top);
    ToRaw(m, H, H', base, top, p);
    OrderedFrame(H, H');
    RingsFrame(m, m, H, H');
    NextSizesFrame(m, m, H, H');
    assert ListAt(m, H, DETACHED, p + 16) && IsCell(H, DETACHED, p + 16);
    forall q | InList(H', q, DETACHED) ensures InList(H, q, DETACHED) && After(H, DETACHED, p + 16, q) {
      assert InList(H, q, DETACHED) && SingleOrd(H, p, q);
    }
    assert Pointee(m, DETACHED, p + 16) == Mask(p + 16, m.Fd(p));
    ChainLists(m, H, H', p);
  }

  lemma ChainLists(m: Mem, H: Heap, H': Heap, p: int)
    requires Lists(m, H) && Low(H) && p != NULL && ChainHead(H, p) && H' == H[p := Chunk(H[p].n, Raw)]
    ensures Lists(m, H')
  {
    forall q | q in H' ensures SingleOk(H', q) {
      assert SingleOk(H, q);
    }
    forall x, y | x != y ensures SingleOrd(H', x, y) {
      assert SingleOrd(H, x, y);
    }
    forall k, a | DETACHED <= k < 86 && IsCell(H', k, a) ensures ListAt(m, H', k, a) {
      assert IsCell(H, k, a) && ListAt(m, H, k, a);
      forall x ensures InList(H', x, k) <==> InList(H, x, k) && x != p {
        DelistingInList(H, H', p, k, x);
      }
      forall q | InList(H', q, k) && After(H', k, a, q) ensures InList(H, q, k) && After(H, k, a, q) && H'[q] == H[q] {}
    }
  }
}
