module RingProofs {
  import opened Sizes
  import opened Memory
  import opened Heap

  /** H' has the same binned chunks as H. */
  ghost predicate SameBinned(H: Heap, H': Heap) {
    forall p, b {:trigger InBin(H, p, b)} {:trigger InBin(H', p, b)} ::
      (InBin(H, p, b) <==> InBin(H', p, b)) && (InBin(H, p, b) ==> H[p] == H'[p])
  }

  ghost predicate SameListed(H: Heap, H': Heap) {
    forall p, l {:trigger InList(H, p, l)} {:trigger InList(H', p, l)} ::
      (InList(H, p, l) <==> InList(H', p, l)) && (InList(H, p, l) ==> H[p] == H'[p])
  }

  lemma SameListedTrans(H0: Heap, H1: Heap, H2: Heap)
    requires SameListed(H0, H1) && SameListed(H1, H2)
    ensures SameListed(H0, H2)
  {}

  /** `p` leaves its bin. */
  ghost predicate Without(H: Heap, H': Heap, p: int) {
    p in H && H[p].st.Binned? && H' == H[p := H[p].(st := Raw)]
  }

  lemma WithoutInBin(H: Heap, H': Heap, p: int, b: int, x: int)
    requires Without(H, H', p)
    ensures InBin(H', x, b) <==> InBin(H, x, b) && x != p
    ensures InBin(H', x, b) ==> H'[x] == H[x]
  {}

  /** `p` joins bin `b` at rank `r`. */
  ghost predicate With(H: Heap, H': Heap, p: int, b: int, r: real) {
    p in H && H[p].st.Raw? && H' == H[p := H[p].(st := Binned(b, r))]
  }

  lemma WithInBin(H: Heap, H': Heap, p: int, b: int, r: real, c: int, x: int)
    requires With(H, H', p, b, r)
    ensures InBin(H', x, c) <==> InBin(H, x, c) || (x == p && c == b)
    ensures InBin(H, x, c) ==> H'[x] == H[x] && x != p
  {}

  ghost predicate RingWordsSame(m: Mem, m': Mem, H: Heap) {
    forall b, x {:trigger Node(H, x, b)} :: 1 <= b <= 127 && Node(H, x, b) ==>
      m'.Fd(x) == m.Fd(x) && m'.Bk(x) == m.Bk(x)
  }

  ghost predicate NextWordsSame(m: Mem, m': Mem, H: Heap) {
    forall b, x {:trigger InBin(H, x, b)} :: InBin(H, x, b) && !InSmallRange(H[x].n) ==>
      m'.FdNext(x) == m.FdNext(x) && m'.BkNext(x) == m.BkNext(x)
  }

  ghost predicate CellWordsSame(m: Mem, m': Mem, H: Heap) {
    && (forall l {:trigger Cell(l)} :: 0 <= l < 86 ==> m'.e(Cell(l)) == m.e(Cell(l)))
    && (forall l, p {:trigger InList(H, p, l)} :: InList(H, p, l) ==> m'.Fd(p) == m.Fd(p))
  }

  lemma OrderedFrame(H: Heap, H': Heap)
    requires Ordered(H) && SameBinned(H, H')
    ensures Ordered(H')
  {
    forall p | p in H' ensures BinOk(H', p) {
      if H'[p].st.Binned? {
        assert InBin(H', p, H'[p].st.b) && BinOk(H, p);
      }
    }
    forall p, q | p != q ensures OrdAt(H', p, q) {
      assert OrdAt(H, p, q);
      if p in H' && q in H' && H'[p].st.Binned? && H'[q].st.Binned? && H'[p].st.b == H'[q].st.b {
        assert InBin(H', p, H'[p].st.b) && InBin(H', q, H'[p].st.b);
      }
    }
  }

  lemma FollowsFrame(H: Heap, H': Heap, b: int, x: int, y: int)
    requires Follows(H, b, x, y) && SameBinned(H, H')
    ensures Follows(H', b, x, y)
  {}

  lemma RingsFrame(m: Mem, m': Mem, H: Heap, H': Heap)
    requires Rings(m, H) && SameBinned(H, H') && RingWordsSame(m, m', H)
    ensures Rings(m', H')
  {
    forall b, x | 1 <= b <= 127 && Node(H', x, b) ensures RingAt(m', H', b, x) {
      assert Node(H, x, b) && RingAt(m, H, b, x);
      assert Node(H, m.Fd(x), b) && Node(H, m.Bk(x), b);
      FollowsFrame(H, H', b, x, m.Fd(x));
      FollowsFrame(H, H', b, m.Bk(x), x);
    }
  }

  lemma NextSizesFrame(m: Mem, m': Mem, H: Heap, H': Heap)
    requires NextSizes(m, H) && Ordered(H) && SameBinned(H, H') && NextWordsSame(m, m', H)
    ensures NextSizes(m', H')
  {
    forall b, p | InBin(H', p, b) && !InSmallRange(H'[p].n) ensures NextSizeAt(m', H', b, p) {
      NextSizeFrame(m, m', H, H', b, p);
    }
  }

  lemma NextSizeFrame(m: Mem, m': Mem, H: Heap, H': Heap, b: int, p: int)
    requires NextSizes(m, H) && Ordered(H) && SameBinned(H, H') && NextWordsSame(m, m', H)
    requires InBin(H', p, b) && !InSmallRange(H'[p].n)
    ensures NextSizeAt(m', H', b, p)
  {
    assert InBin(H, p, b) && NextSizeAt(m, H, b, p) && BinOk(H, p);
    if b == UNSORTED {
    } else if m.FdNext(p) == NULL {
      var q :| Lead(m, H, q, b) && H[q].n == H[p].n && H[q].st.r < H[p].st.r;
      assert Lead(m', H', q, b);
    } else {
      var f, k := m.FdNext(p), m.BkNext(p);
      LargeStays(H, b, p, f);
      LargeStays(H, b, p, k);
      assert Lead(m', H', f, b) && Lead(m', H', k, b);
    }
  }

  /** All chunks of a bin are on the same side of the small/large boundary. */
  lemma LargeStays(H: Heap, b: int, p: int, q: int)
    requires Ordered(H) && InBin(H, p, b) && InBin(H, q, b) && b != UNSORTED
    requires !InSmallRange(H[p].n)
    ensures !InSmallRange(H[q].n) && b >= 64
  {
    assert BinOk(H, p) && BinOk(H, q);
    BinIndexRange(H[p].n);
    BinIndexRange(H[q].n);
  }

  lemma ListsFrame(m: Mem, m': Mem, H: Heap, H': Heap)
    requires Lists(m, H) && SameListed(H, H') && CellWordsSame(m, m', H)
    ensures Lists(m', H')
  {
    forall p | p in H' ensures SingleOk(H', p) {
      if H'[p].st.Listed? {
        assert InList(H', p, H'[p].st.l) && SingleOk(H, p);
      }
    }
    forall p, q | p != q ensures SingleOrd(H', p, q) {
      assert SingleOrd(H, p, q);
      if p in H' && q in H' && H'[p].st.Listed? && H'[q].st.Listed? && H'[p].st.l == H'[q].st.l {
        assert InList(H', p, H'[p].st.l) && InList(H', q, H'[p].st.l);
      }
    }
    forall l, a | DETACHED <= l < 86 && IsCell(H', l, a) ensures ListAt(m', H', l, a) {
      assert ListAt(m, H, l, a) && (InList(H', a - 16, l) ==> InList(H, a - 16, l));
      assert Pointee(m', l, a) == Pointee(m, l, a);
    }
  }

  lemma FollowsKeep(H: Heap, H': Heap, b: int, x: int, y: int)
    requires Follows(H, b, x, y) && Node(H', x, b) && Node(H', y, b)
    requires forall q {:trigger InBin(H', q, b)} :: InBin(H', q, b) ==> q in H && H[q] == H'[q]
    requires Low(H) && b <= 127
    ensures Follows(H', b, x, y)
  {
    assert x != Hdr(b) ==> InBin(H', x, b);
    assert y != Hdr(b) ==> InBin(H', y, b);
    assert InBin(H, x, b) ==> x != Hdr(b);
    assert InBin(H, y, b) ==> y != Hdr(b);
    forall q | InBin(H', q, b)
      ensures (InBin(H', x, b) && H'[q].st.r <= H'[x].st.r) || (InBin(H', y, b) && H'[y].st.r <= H'[q].st.r)
    {
      assert InBin(H, q, b);
    }
  }

  lemma FollowsSkip(H: Heap, H': Heap, b: int, x: int, p: int, y: int)
    requires Follows(H, b, x, p) && Follows(H, b, p, y) && InBin(H, p, b)
    requires H' == H[p := H[p].(st := Raw)] && Low(H) && b <= 127
    requires forall q {:trigger OrdAt(H, p, q)} :: p != q ==> OrdAt(H, p, q)
    ensures Follows(H', b, x, y)
  {
    assert InBin(H, x, b) ==> InBin(H', x, b) && x != Hdr(b);
    assert InBin(H, y, b) ==> InBin(H', y, b) && y != Hdr(b);
    forall q | InBin(H', q, b)
      ensures (InBin(H', x, b) && H'[q].st.r <= H'[x].st.r) || (InBin(H', y, b) && H'[y].st.r <= H'[q].st.r)
    {
      assert InBin(H, q, b) && OrdAt(H, p, q);
    }
  }

  lemma UnlinkOrdered(H: Heap, H': Heap, p: int)
    requires Ordered(H) && Without(H, H', p)
    ensures Ordered(H')
  {
    forall q | q in H' ensures BinOk(H', q) {
      assert BinOk(H, q);
    }
    forall x, y | x != y ensures OrdAt(H', x, y) {
      assert OrdAt(H, x, y);
    }
  }

  /** Writing the neighbours' links around `p` takes exactly `p` out of its ring. */
  lemma UnlinkRing(m: Mem, m': Mem, H: Heap, H': Heap, p: int)
    requires Rings(m, H) && Ordered(H) && Low(H)
    requires Without(H, H', p)
    requires m'.Bk(m.Fd(p)) == m.Bk(p) && m'.Fd(m.Bk(p)) == m.Fd(p)
    requires forall b, x {:trigger Node(H, x, b)} :: 1 <= b <= 127 && Node(H, x, b) ==>
        (x != m.Fd(p) ==> m'.Bk(x) == m.Bk(x)) && (x != m.Bk(p) ==> m'.Fd(x) == m.Fd(x))
    ensures Rings(m', H') && Ordered(H')
  {
    UnlinkOrdered(H, H', p);
    var b0 := H[p].st.b;
    assert BinOk(H, p);
    assert RingAt(m, H, b0, p) && InBin(H, p, b0);
    var fd, bk := m.Fd(p), m.Bk(p);
    FollowsSkip(H, H', b0, bk, p, fd);
    forall b, x | 1 <= b <= 127 && Node(H', x, b) ensures RingAt(m', H', b, x) {
      assert RingAt(m, H, b, x) && Node(H, x, b);
      if x != bk {
        FollowsKeep(H, H', b, x, m.Fd(x));
      }
      if x != fd {
        FollowsKeep(H, H', b, m.Bk(x), x);
      }
    }
  }

  /** A rank strictly between two neighbours of ring b. */
  ghost function RankBetween(H: Heap, b: int, bck: int, fwd: int): (r: real)
    requires InBin(H, bck, b) && InBin(H, fwd, b) ==> H[bck].st.r < H[fwd].st.r
    ensures InBin(H, bck, b) ==> H[bck].st.r < r
    ensures InBin(H, fwd, b) ==> r < H[fwd].st.r
  {
    if InBin(H, bck, b) then
      if InBin(H, fwd, b) then (H[bck].st.r + H[fwd].st.r) / 2.0 else H[bck].st.r + 1.0
    else if InBin(H, fwd, b) then H[fwd].st.r - 1.0
    else 0.0
  }

  ghost predicate Slot(m: Mem, H: Heap, b: int, bck: int, fwd: int, r: real) {
    && 1 <= b <= 126 && Node(H, bck, b) && m.Fd(bck) == fwd
    && (InBin(H, bck, b) ==> H[bck].st.r < r)
    && (InBin(H, fwd, b) ==> r < H[fwd].st.r)
  }

  lemma InsertOrdered'(H: Heap, p: int, b: int, bck: int, fwd: int, r: real, q: int)
    requires Ordered(H) && InBin(H, q, b) && Follows(H, b, bck, fwd) && p in H
    requires InBin(H, bck, b) ==> H[bck].st.r < r && (b >= 64 ==> H[bck].n >= H[p].n)
    requires InBin(H, fwd, b) ==> r < H[fwd].st.r && (b >= 64 ==> H[p].n >= H[fwd].n)
    ensures H[q].st.r != r
    ensures b >= 64 ==> if H[q].st.r < r then H[q].n >= H[p].n else H[p].n >= H[q].n
  {
    assert q != bck ==> OrdAt(H, q, bck);
    assert q != fwd ==> OrdAt(H, fwd, q);
  }

  lemma InsertOrdered(m: Mem, H: Heap, H': Heap, p: int, b: int, bck: int, fwd: int, r: real)
    requires Ordered(H) && Rings(m, H) && With(H, H', p, b, r) && Slot(m, H, b, bck, fwd, r)
    requires H[p].n >= MINSIZE && (b == UNSORTED || b == BinIndex(H[p].n))
    requires b >= 64 && InBin(H, bck, b) ==> H[bck].n >= H[p].n
    requires b >= 64 && InBin(H, fwd, b) ==> H[p].n >= H[fwd].n
    ensures Ordered(H')
  {
    assert RingAt(m, H, b, bck);
    forall q | q in H' ensures BinOk(H', q) {
      assert BinOk(H, q);
    }
    forall x, y | x != y ensures OrdAt(H', x, y) {
      assert OrdAt(H, x, y);
      if x == p && InBin(H, y, b) {
        InsertOrdered'(H, p, b, bck, fwd, r, y);
      } else if y == p && InBin(H, x, b) {
        InsertOrdered'(H, p, b, bck, fwd, r, x);
      }
    }
  }

  lemma FollowsAcross(H: Heap, H': Heap, b: int, x: int, y: int, p: int, c: int, r: real)
    requires Follows(H, c, x, y) && With(H, H', p, b, r) && c != b
    ensures Follows(H', c, x, y)
  {
    forall q ensures InBin(H', q, c) <==> InBin(H, q, c) {
      WithInBin(H, H', p, b, r, c, q);
    }
  }

  lemma FollowsWide(H: Heap, H': Heap, b: int, x: int, y: int, p: int, r: real)
    requires Follows(H, b, x, y) && With(H, H', p, b, r) && Low(H) && b <= 127
    requires (InBin(H, x, b) && r <= H[x].st.r) || (InBin(H, y, b) && H[y].st.r <= r)
    ensures Follows(H', b, x, y)
  {
    assert p in H && p != Hdr(b);
    WithInBin(H, H', p, b, r, b, x);
    WithInBin(H, H', p, b, r, b, y);
    forall q | InBin(H', q, b)
      ensures (InBin(H', x, b) && H'[q].st.r <= H'[x].st.r) || (InBin(H', y, b) && H'[y].st.r <= H'[q].st.r)
    {
      WithInBin(H, H', p, b, r, b, q);
    }
  }

  lemma FollowsSplit(H: Heap, H': Heap, b: int, x: int, y: int, p: int, r: real)
    requires Follows(H, b, x, y) && With(H, H', p, b, r) && Low(H) && b <= 127
    requires InBin(H, x, b) ==> H[x].st.r < r
    requires InBin(H, y, b) ==> r < H[y].st.r
    ensures Follows(H', b, x, p) && Follows(H', b, p, y)
  {
    assert p in H && p != Hdr(b);
    forall q ensures InBin(H', q, b) <==> InBin(H, q, b) || q == p {
      WithInBin(H, H', p, b, r, b, q);
    }
  }

  /** Writing four links puts `p` between two neighbours of ring b. */
  lemma InsertRing(m: Mem, m': Mem, H: Heap, H': Heap, p: int, b0: int, bck: int, fwd: int, r: real)
    requires Rings(m, H) && Ordered(H) && Low(H)
    requires With(H, H', p, b0, r) && Slot(m, H, b0, bck, fwd, r)
    requires m'.Fd(p) == fwd && m'.Bk(p) == bck && m'.Fd(bck) == p && m'.Bk(fwd) == p
    requires forall b, x {:trigger Node(H, x, b)} :: 1 <= b <= 127 && Node(H, x, b) ==>
        (x != fwd ==> m'.Bk(x) == m.Bk(x)) && (x != bck ==> m'.Fd(x) == m.Fd(x))
    ensures Rings(m', H')
  {
    assert RingAt(m, H, b0, bck);
    FollowsSplit(H, H', b0, bck, fwd, p, r);
    forall b, x | 1 <= b <= 127 && Node(H', x, b) ensures RingAt(m', H', b, x) {
      WithInBin(H, H', p, b0, r, b, x);
      if x != p {
        InsertRingOther(m, m', H, H', p, b0, bck, fwd, r, b, x);
      }
    }
  }

  lemma InsertRingOther(m: Mem, m': Mem, H: Heap, H': Heap, p: int, b0: int, bck: int, fwd: int, r: real, b: int, x: int)
    requires Rings(m, H) && Ordered(H) && Low(H)
    requires With(H, H', p, b0, r) && Slot(m, H, b0, bck, fwd, r)
    requires Follows(H', b0, bck, p) && Follows(H', b0, p, fwd)
    requires m'.Fd(p) == fwd && m'.Bk(p) == bck && m'.Fd(bck) == p && m'.Bk(fwd) == p
    requires forall b, x {:trigger Node(H, x, b)} :: 1 <= b <= 127 && Node(H, x, b) ==>
        (x != fwd ==> m'.Bk(x) == m.Bk(x)) && (x != bck ==> m'.Fd(x) == m.Fd(x))
    requires 1 <= b <= 127 && Node(H, x, b)
    ensures RingAt(m', H', b, x)
  {
    assert RingAt(m, H, b0, bck) && RingAt(m, H, b, x);
    assert Node(H, m.Fd(x), b) && Node(H, m.Bk(x), b);
    if b != b0 {
      FollowsAcross(H, H', b0, x, m.Fd(x), p, b, r);
      FollowsAcross(H, H', b0, m.Bk(x), x, p, b, r);
    } else {
      if x != bck {
        InsertAway(m, H, p, b, bck, fwd, r, x, m.Fd(x));
        FollowsWide(H, H', b, x, m.Fd(x), p, r);
      }
      if x != fwd {
        InsertAway(m, H, p, b, bck, fwd, r, m.Bk(x), x);
        FollowsWide(H, H', b, m.Bk(x), x, p, r);
      }
    }
  }

  /** A rank between two neighbours lies outside every other gap of the ring. */
  lemma InsertAway(m: Mem, H: Heap, p: int, b: int, bck: int, fwd: int, r: real, x: int, y: int)
    requires Rings(m, H) && Ordered(H) && Low(H) && Slot(m, H, b, bck, fwd, r) && Follows(H, b, x, y) && Follows(H, b, bck, fwd)
    requires x != bck && y != fwd && m.Fd(x) == y && m.Bk(y) == x
    ensures (InBin(H, x, b) && r <= H[x].st.r) || (InBin(H, y, b) && H[y].st.r <= r)
  {
    assert !InBin(H, Hdr(b), b);
    assert x == Hdr(b) || InBin(H, x, b);
    assert bck == Hdr(b) || InBin(H, bck, b);
    assert fwd == Hdr(b) || InBin(H, fwd, b);
    assert OrdAt(H, x, bck);
  }
}
