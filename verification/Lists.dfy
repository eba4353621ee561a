/** Singly linked lists (fastbins and thread-cache bins): putting a chunk behind a cell and
    taking out the chunk a cell points to. A cell is the word holding a link: the head of the
    list, or the fd word of one of its chunks. */
module ListProofs {
  import opened Memory
  import opened Heap

  /** The chunk a link value of list l names. */
  function Named(l: int, v: int): int {
    if l < NFASTBINS then v else v - 16
  }

  ghost predicate CellsSameBut(m: Mem, m': Mem, H: Heap, a: int) {
    && (forall l {:trigger Cell(l)} :: 0 <= l < 86 && Cell(l) != a ==> m'.e(Cell(l)) == m.e(Cell(l)))
    && (forall l, p {:trigger InList(H, p, l)} :: InList(H, p, l) && p + 16 != a ==> m'.Fd(p) == m.Fd(p))
  }

  lemma CellSame(m: Mem, m': Mem, H: Heap, a: int, l: int, c: int)
    requires CellsSameBut(m, m', H, a) && IsCell(H, l, c) && c != a && DETACHED <= l < 86
    ensures Pointee(m', l, c) == Pointee(m, l, c)
  {
    if c != Cell(l) {
      assert InList(H, c - 16, l) && m'.Fd(c - 16) == m.Fd(c - 16);
    } else {
      assert m'.e(Cell(l)) == m.e(Cell(l));
    }
  }

  // ---------------------------------------------------------------- insertion

  /** Rank r lies behind cell a and before what a points to. */
  ghost predicate Behind(m: Mem, H: Heap, l: int, a: int, r: real) {
    && 0 <= l < 86 && IsCell(H, l, a)
    && (InList(H, a - 16, l) ==> H[a - 16].st.r < r)
    && var v := Pointee(m, l, a);
    && (v != NULL && InList(H, Named(l, v), l) ==> r < H[Named(l, v)].st.r)
  }

  ghost predicate Listing(H: Heap, H': Heap, p: int, l: int, r: real) {
    p in H && !H[p].st.Listed? && H' == H[p := H[p].(st := Listed(l, r))]
  }

  lemma ListingInList(H: Heap, H': Heap, p: int, l: int, r: real, k: int, x: int)
    requires Listing(H, H', p, l, r)
    ensures InList(H', x, k) <==> InList(H, x, k) || (x == p && k == l)
    ensures InList(H, x, k) ==> H'[x] == H[x] && x != p
  {}

  ghost function RankBehind(m: Mem, H: Heap, l: int, a: int): (r: real)
    requires Lists(m, H) && Low(H) && 0 <= l < 86 && IsCell(H, l, a)
    ensures Behind(m, H, l, a, r)
  {
    assert ListAt(m, H, l, a);
    assert InList(H, a - 16, l) ==> a != Cell(l);
    var v := Pointee(m, l, a);
    var s := Named(l, v);
    if InList(H, a - 16, l) then
      if v != NULL then (H[a - 16].st.r + H[s].st.r) / 2.0 else H[a - 16].st.r + 1.0
    else if v != NULL then H[s].st.r - 1.0
    else 0.0
  }

  lemma InsertRankNew(m: Mem, H: Heap, l: int, a: int, r: real, p: int, q: int)
    requires Lists(m, H) && Low(H) && Behind(m, H, l, a, r) && InList(H, q, l) && p in H && !H[p].st.Listed?
    requires InList(H, a - 16, l) ==> H[a - 16].n <= H[p].n
    requires var v := Pointee(m, l, a); v != NULL && InList(H, Named(l, v), l) ==> H[p].n <= H[Named(l, v)].n
    ensures H[q].st.r != r
    ensures if H[q].st.r < r then H[q].n <= H[p].n else H[p].n <= H[q].n
  {
    assert ListAt(m, H, l, a);
    var s := Named(l, Pointee(m, l, a));
    if After(H, l, a, q) {
      assert s != q ==> SingleOrd(H, s, q);
    } else {
      assert q != a - 16 ==> SingleOrd(H, q, a - 16);
    }
  }

  /** The chunk `p` is linked in behind cell `a`. */
  lemma InsertList(m: Mem, m': Mem, H: Heap, H': Heap, p: int, l: int, a: int, r: real)
    requires Lists(m, H) && Low(H) && Listing(H, H', p, l, r) && Behind(m, H, l, a, r)
    requires ListSize(l, H[p].n)
    requires InList(H, a - 16, l) ==> H[a - 16].n <= H[p].n
    requires var v := Pointee(m, l, a); v != NULL && InList(H, Named(l, v), l) ==> H[p].n <= H[Named(l, v)].n
    requires Pointee(m', l, a) == Link(l, p) && Pointee(m', l, p + 16) == Pointee(m, l, a)
    requires CellsSameBut(m, m', H, a)
    ensures Lists(m', H')
  {
    forall q | q in H' ensures SingleOk(H', q) {
      assert SingleOk(H, q);
    }
    forall x, y | x != y ensures SingleOrd(H', x, y) {
      assert SingleOrd(H, x, y);
      if x == p && InList(H, y, l) {
        InsertRankNew(m, H, l, a, r, p, y);
      } else if y == p && InList(H, x, l) {
        InsertRankNew(m, H, l, a, r, p, x);
      }
    }
    forall k, c | DETACHED <= k < 86 && IsCell(H', k, c) ensures ListAt(m', H', k, c) {
      ListingInList(H, H', p, l, r, k, c - 16);
      if k != l {
        InsertListOther(m, m', H, H', p, l, a, r, k, c);
      } else if c == a || c == p + 16 {
        InsertListHere(m, m', H, H', p, l, a, r, c);
      } else {
        InsertListSame(m, m', H, H', p, l, a, r, c);
      }
    }
  }

  lemma InsertListOther(m: Mem, m': Mem, H: Heap, H': Heap, p: int, l: int, a: int, r: real, k: int, c: int)
    requires Lists(m, H) && Low(H) && Listing(H, H', p, l, r) && Behind(m, H, l, a, r) && CellsSameBut(m, m', H, a)
    requires DETACHED <= k < 86 && k != l && IsCell(H', k, c)
    ensures ListAt(m', H', k, c)
  {
    forall x ensures InList(H', x, k) <==> InList(H, x, k) {
      ListingInList(H, H', p, l, r, k, x);
    }
    assert ListAt(m, H, k, c);
    CellSame(m, m', H, a, k, c);
  }

  lemma InsertListHere(m: Mem, m': Mem, H: Heap, H': Heap, p: int, l: int, a: int, r: real, c: int)
    requires Lists(m, H) && Low(H) && Listing(H, H', p, l, r) && Behind(m, H, l, a, r)
    requires Pointee(m', l, a) == Link(l, p) && Pointee(m', l, p + 16) == Pointee(m, l, a)
    requires c == a || c == p + 16
    ensures ListAt(m', H', l, c)
  {
    assert ListAt(m, H, l, a) && p in H && p >= HEAP_MIN;
    assert InList(H', p, l);
    ListingInList(H, H', p, l, r, l, a - 16);
    if c == a {
      forall q | InList(H', q, l) && After(H', l, a, q) ensures r <= H'[q].st.r {
        ListingInList(H, H', p, l, r, l, q);
        assert InList(H', a - 16, l) ==> a != Cell(l);
        if q != p {
          assert After(H, l, a, q);
        }
      }
    } else {
      var v := Pointee(m, l, a);
      var s := Named(l, v);
      ListingInList(H, H', p, l, r, l, s);
      assert InList(H, a - 16, l) ==> a != Cell(l);
      forall q | InList(H', q, l) && After(H', l, c, q) ensures After(H, l, a, q) && InList(H, q, l) && H[q] == H'[q] {
        ListingInList(H, H', p, l, r, l, q);
      }
    }
  }

  lemma InsertListSame(m: Mem, m': Mem, H: Heap, H': Heap, p: int, l: int, a: int, r: real, c: int)
    requires Lists(m, H) && Low(H) && Listing(H, H', p, l, r) && Behind(m, H, l, a, r) && CellsSameBut(m, m', H, a)
    requires IsCell(H', l, c) && c != a && c != p + 16
    ensures ListAt(m', H', l, c)
  {
    ListingInList(H, H', p, l, r, l, c - 16);
    assert ListAt(m, H, l, c) && ListAt(m, H, l, a);
    CellSame(m, m', H, a, l, c);
    var v := Pointee(m, l, c);
    var s := Named(l, v);
    assert InList(H, a - 16, l) ==> a != Cell(l);
    assert InList(H, c - 16, l) ==> c != Cell(l);
    assert SingleOrd(H, a - 16, c - 16);
    ListingInList(H, H', p, l, r, l, s);
    if v == NULL {
      assert InList(H, c - 16, l);
    }
    forall q | InList(H', q, l) && After(H', l, c, q)
      ensures v != NULL && H[s].st.r <= H'[q].st.r
    {
      ListingInList(H, H', p, l, r, l, q);
      if q != p {
        assert After(H, l, c, q);
      }
    }
  }

  // ---------------------------------------------------------------- removal

  ghost predicate Delisting(H: Heap, H': Heap, p: int) {
    p in H && H[p].st.Listed? && (H' == H[p := H[p].(st := Live)] || H' == H[p := H[p].(st := Raw)])
  }

  lemma DelistingInList(H: Heap, H': Heap, p: int, k: int, x: int)
    requires Delisting(H, H', p)
    ensures InList(H', x, k) <==> InList(H, x, k) && x != p
    ensures InList(H', x, k) ==> H'[x] == H[x]
  {}

  /** Cell `a` skips the chunk it pointed to. */
  lemma RemoveList(m: Mem, m': Mem, H: Heap, H': Heap, p: int, l: int, a: int)
    requires Lists(m, H) && Low(H) && Delisting(H, H', p) && 0 <= l < 86 && IsCell(H, l, a)
    requires Pointee(m, l, a) == Link(l, p) && InList(H, p, l)
    requires Pointee(m', l, a) == Pointee(m, l, p + 16) && CellsSameBut(m, m', H, a)
    ensures Lists(m', H')
  {
    forall q | q in H' ensures SingleOk(H', q) {
      assert SingleOk(H, q);
    }
    forall x, y | x != y ensures SingleOrd(H', x, y) {
      assert SingleOrd(H, x, y);
    }
    forall k, c | DETACHED <= k < 86 && IsCell(H', k, c) ensures ListAt(m', H', k, c) {
      DelistingInList(H, H', p, k, c - 16);
      forall x ensures InList(H', x, k) <==> InList(H, x, k) && x != p {
        DelistingInList(H, H', p, k, x);
      }
      if c == a {
        RemoveListHere(m, m', H, H', p, l, a, k);
      } else {
        RemoveListOther(m, m', H, H', p, l, a, k, c);
      }
    }
  }

  lemma RemoveListHere(m: Mem, m': Mem, H: Heap, H': Heap, p: int, l: int, a: int, k: int)
    requires Lists(m, H) && Low(H) && Delisting(H, H', p) && 0 <= l < 86 && IsCell(H, l, a)
    requires Pointee(m, l, a) == Link(l, p) && InList(H, p, l)
    requires Pointee(m', l, a) == Pointee(m, l, p + 16)
    requires DETACHED <= k < 86 && IsCell(H', k, a)
    requires forall x {:trigger InList(H', x, k)} :: InList(H', x, k) <==> InList(H, x, k) && x != p
    ensures ListAt(m', H', k, a)
  {
    assert p >= HEAP_MIN;
    assert InList(H, a - 16, l) ==> a != Cell(k);
    assert InList(H', a - 16, k) ==> a != Cell(l);
    assert k == l;
    assert ListAt(m, H, l, a) && ListAt(m, H, l, p + 16);
    assert InList(H, a - 16, l) ==> a != Cell(l);
    forall q | InList(H', q, l) && After(H', l, a, q)
      ensures InList(H, q, l) && H'[q] == H[q] && After(H, l, p + 16, q)
    {
      assert InList(H, q, l) && After(H, l, a, q);
      assert SingleOrd(H, p, q);
    }
  }

  lemma RemoveListOther(m: Mem, m': Mem, H: Heap, H': Heap, p: int, l: int, a: int, k: int, c: int)
    requires Lists(m, H) && Low(H) && Delisting(H, H', p) && 0 <= l < 86 && IsCell(H, l, a)
    requires Pointee(m, l, a) == Link(l, p) && InList(H, p, l) && CellsSameBut(m, m', H, a)
    requires DETACHED <= k < 86 && IsCell(H', k, c) && IsCell(H, k, c) && c != a
    requires forall x {:trigger InList(H', x, k)} :: InList(H', x, k) <==> InList(H, x, k) && x != p
    ensures ListAt(m', H', k, c)
  {
    CellSame(m, m', H, a, k, c);
    assert ListAt(m, H, k, c) && ListAt(m, H, l, a) && p >= HEAP_MIN;
    var v := Pointee(m, k, c);
    var s := Named(k, v);
    assert InList(H, a - 16, l) ==> a != Cell(l);
    assert InList(H, c - 16, k) ==> c != Cell(k);
    assert SingleOrd(H, a - 16, c - 16);
    if v != NULL {
      assert InList(H', s, k);
    }
    forall q | InList(H', q, k) && After(H', k, c, q) ensures InList(H, q, k) && After(H, k, c, q) && H'[q] == H[q] {
    }
  }
}
