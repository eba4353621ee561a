/** How the tiling and the boundary tags survive each elementary change of the heap. */
module LayoutProofs {
  import opened Sizes
  import opened Memory
  import opened Heap

  ghost predicate Body(m: Mem, H: Heap, base: int, top: int) {
    Tiled(H, base, top) && Tags(m, H, top)
  }

  /** The heads and footers at every chunk boundary are unchanged. */
  ghost predicate TagWordsSame(m: Mem, m': Mem, H: Heap) {
    forall p {:trigger p in H} :: p in H ==>
      m'.Head(p) == m.Head(p) && m'.PrevSize(p) == m.PrevSize(p)
  }

  lemma TagsFrame(m: Mem, m': Mem, H: Heap, base: int, top: int)
    requires Body(m, H, base, top) && TagWordsSame(m, m', H)
    ensures Body(m', H, base, top)
  {
    forall p | p in H ensures TagAt(m', H, top, p) {
      assert TagAt(m, H, top, p) && Placed(H, base, top, p);
    }
  }

  /** At most one chunk ends at a given address. */
  lemma SameEnd(H: Heap, base: int, top: int, x: int, y: int)
    requires Tiled(H, base, top) && x in H && y in H && x + H[x].n == y + H[y].n
    ensures x == y
  {
    assert Placed(H, base, top, x) && Placed(H, base, top, y);
    assert x != y ==> Apart(H, x, y);
  }

  lemma EndsOnce(H: Heap, base: int, top: int, x: int, y: int)
    requires Tiled(H, base, top)
    ensures x in H && y in H && x + H[x].n == y + H[y].n ==> x == y
  {
    if x in H && y in H && x + H[x].n == y + H[y].n {
      SameEnd(H, base, top, x, y);
    }
  }

  /** A binned chunk or an unowned chunk with its P bit set is taken over by the operation. */
  lemma ToRaw(m: Mem, H: Heap, H': Heap, base: int, top: int, p: int)
    requires Body(m, H, base, top) && p in H && !H[p].st.Fence? && !H[p].st.Gap?
    requires m.Head(p) == H[p].n + 1 || RawBefore(H, p)
    requires H' == H[p := H[p].(st := Raw)]
    ensures Body(m, H', base, top)
  {
    assert Placed(H, base, top, p) && TagAt(m, H, top, p);
    forall x | x in H' ensures Placed(H', base, top, x) && TagAt(m, H', top, x) {
      assert Placed(H, base, top, x) && TagAt(m, H, top, x);
      ToRawTag(m, H, H', base, top, p, x);
    }
    forall x, y | x != y ensures Apart(H', x, y) {
      assert Apart(H, x, y);
    }
  }

  lemma ToRawTag(m: Mem, H: Heap, H': Heap, base: int, top: int, p: int, x: int)
    requires Body(m, H, base, top) && p in H && x in H && !H[p].st.Fence? && !H[p].st.Gap?
    requires m.Head(p) == H[p].n + 1 || RawBefore(H, p)
    requires H' == H[p := H[p].(st := Raw)]
    ensures TagAt(m, H', top, x)
  {
    assert TagAt(m, H, top, x) && TagAt(m, H, top, p) && Placed(H, base, top, x) && Placed(H, base, top, p);
    if RawBefore(H, x) {
      var d :| d in H && H[d].st.Raw? && d + H[d].n == x;
      assert H'[d].st.Raw? && d + H'[d].n == x;
    }
    if x + H[x].n == p && RawBefore(H, p) {
      var d :| d in H && H[d].st.Raw? && d + H[d].n == p;
      SameEnd(H, base, top, d, x);
    }
    assert x - m.PrevSize(x) == p && H[p].n == m.PrevSize(x) ==> RawBefore(H', x) by {
      assert H'[p].st.Raw?;
    }
  }

  /** An owned chunk with a proper head, in front of a set P bit, is given a use. */
  lemma FromRaw(m: Mem, H: Heap, H': Heap, base: int, top: int, p: int)
    requires Body(m, H, base, top) && p in H && H[p].st.Raw? && H[p].n >= MINSIZE
    requires m.Head(p) == H[p].n + 1
    requires var q := p + H[p].n; q == top || (q in H && (H[q].st.Raw? || m.Head(q) == H[q].n + 1))
    requires p in H' && H' == H[p := H'[p]] && H'[p].n == H[p].n && (H'[p].st.Live? || H'[p].st.Listed?)
    ensures Body(m, H', base, top)
  {
    forall x | x in H' ensures Placed(H', base, top, x) && TagAt(m, H', top, x) {
      assert Placed(H, base, top, x) && TagAt(m, H, top, x);
      FromRawTag(m, H, H', base, top, p, x);
    }
    forall x, y | x != y ensures Apart(H', x, y) {
      assert Apart(H, x, y);
    }
  }

  lemma FromRawTag(m: Mem, H: Heap, H': Heap, base: int, top: int, p: int, x: int)
    requires Body(m, H, base, top) && p in H && H[p].st.Raw? && x in H
    requires m.Head(p) == H[p].n + 1
    requires var q := p + H[p].n; q == top || (q in H && (H[q].st.Raw? || m.Head(q) == H[q].n + 1))
    requires p in H' && H' == H[p := H'[p]] && H'[p].n == H[p].n && (H'[p].st.Live? || H'[p].st.Listed?)
    ensures TagAt(m, H', top, x)
  {
    assert TagAt(m, H, top, x) && Placed(H, base, top, x) && Placed(H, base, top, p);
    if RawBefore(H, x) {
      var d :| d in H && H[d].st.Raw? && d + H[d].n == x;
      if d != p {
        assert H'[d].st.Raw? && d + H'[d].n == x;
      }
    }
  }

  /** An owned chunk with head and footer written and the P bit behind it clear is put in a bin. */
  lemma ToBinned(m: Mem, H: Heap, H': Heap, base: int, top: int, p: int)
    requires Body(m, H, base, top) && p in H && H[p].st.Raw? && H[p].n >= MINSIZE
    requires m.Head(p) == H[p].n + 1
    requires var q := p + H[p].n; q in H && !H[q].st.Raw? && m.PrevSize(q) == H[p].n && m.Head(q) == H[q].n
    requires p in H' && H' == H[p := H'[p]] && H'[p].n == H[p].n && H'[p].st.Binned?
    ensures Body(m, H', base, top)
  {
    forall x | x in H' ensures Placed(H', base, top, x) && TagAt(m, H', top, x) {
      assert Placed(H, base, top, x) && TagAt(m, H, top, x);
      ToBinnedTag(m, H, H', base, top, p, x);
    }
    forall x, y | x != y ensures Apart(H', x, y) {
      assert Apart(H, x, y);
    }
  }

  lemma ToBinnedTag(m: Mem, H: Heap, H': Heap, base: int, top: int, p: int, x: int)
    requires Body(m, H, base, top) && p in H && H[p].st.Raw? && x in H
    requires m.Head(p) == H[p].n + 1
    requires var q := p + H[p].n; q in H && !H[q].st.Raw? && m.PrevSize(q) == H[p].n && m.Head(q) == H[q].n
    requires p in H' && H' == H[p := H'[p]] && H'[p].n == H[p].n && H'[p].st.Binned?
    ensures TagAt(m, H', top, x)
  {
    assert TagAt(m, H, top, x) && Placed(H, base, top, x) && Placed(H, base, top, p);
    if RawBefore(H, x) {
      var d :| d in H && H[d].st.Raw? && d + H[d].n == x;
      if d != p {
        assert H'[d].st.Raw? && d + H'[d].n == x;
      }
    }
  }

  /** Two adjacent owned chunks become one. */
  ghost function Joined(H: Heap, p: int, q: int): Heap
    requires p in H && q in H
  {
    (map x | x in H && x != q :: H[x])[p := Chunk(H[p].n + H[q].n, Raw)]
  }

  lemma Join(m: Mem, H: Heap, base: int, top: int, p: int, q: int)
    requires Body(m, H, base, top) && p in H && q in H && q == p + H[p].n
    requires H[p].st.Raw? && H[q].st.Raw?
    ensures Body(m, Joined(H, p, q), base, top)
  {
    var H' := Joined(H, p, q);
    assert Placed(H, base, top, p) && Placed(H, base, top, q) && p != q;
    forall x | x in H' ensures Placed(H', base, top, x) && TagAt(m, H', top, x) {
      JoinTag(m, H, base, top, p, q, x);
    }
    forall x, y | x != y ensures Apart(H', x, y) {
      assert Apart(H, x, y) && Apart(H, p, q);
      assert q != x ==> Apart(H, q, x);
      assert q != y ==> Apart(H, q, y);
    }
  }

  lemma JoinTag(m: Mem, H: Heap, base: int, top: int, p: int, q: int, x: int)
    requires Body(m, H, base, top) && p in H && q in H && q == p + H[p].n && p != q
    requires H[p].st.Raw? && H[q].st.Raw? && x in Joined(H, p, q)
    ensures Placed(Joined(H, p, q), base, top, x) && TagAt(m, Joined(H, p, q), top, x)
  {
    var H' := Joined(H, p, q);
    assert TagAt(m, H, top, x) && Placed(H, base, top, x) && Placed(H, base, top, p) && Placed(H, base, top, q);
    if x + H[x].n == q {
      SameEnd(H, base, top, x, p);
    }
    if RawBefore(H, x) {
      var d :| d in H && H[d].st.Raw? && d + H[d].n == x;
      var d' := if d == q then p else d;
      assert d' in H' && H'[d'].st.Raw? && d' + H'[d'].n == x;
    }
  }

  /** An owned chunk is cut in two. */
  ghost function Cut(H: Heap, p: int, k: int): Heap
    requires p in H
  {
    H[p := Chunk(k, Raw)][p + k := Chunk(H[p].n - k, Raw)]
  }

  lemma Split(m: Mem, H: Heap, base: int, top: int, p: int, k: int)
    requires Body(m, H, base, top) && p in H && H[p].st.Raw? && k % 16 == 0 && 16 <= k <= H[p].n - 16
    ensures p + k !in H && Body(m, Cut(H, p, k), base, top)
  {
    var H' := Cut(H, p, k);
    assert Placed(H, base, top, p);
    assert p + k in H ==> Apart(H, p, p + k) && Placed(H, base, top, p + k);
    forall x | x in H' ensures Placed(H', base, top, x) && TagAt(m, H', top, x) {
      SplitPlaced(H, base, top, p, k, x);
      SplitTag(m, H, base, top, p, k, x);
    }
    forall x, y | x != y ensures Apart(H', x, y) {
      assert Apart(H, x, y);
      assert x != p ==> Apart(H, p, x);
      assert y != p ==> Apart(H, p, y);
    }
  }

  lemma SplitPlaced(H: Heap, base: int, top: int, p: int, k: int, x: int)
    requires Tiled(H, base, top) && p in H && H[p].st.Raw? && k % 16 == 0 && 16 <= k <= H[p].n - 16
    requires p + k !in H && x in Cut(H, p, k)
    ensures Placed(Cut(H, p, k), base, top, x)
  {
    assert Placed(H, base, top, p);
    assert x in H ==> Placed(H, base, top, x);
  }

  lemma SplitTag(m: Mem, H: Heap, base: int, top: int, p: int, k: int, x: int)
    requires Body(m, H, base, top) && p in H && H[p].st.Raw? && k % 16 == 0 && 16 <= k <= H[p].n - 16
    requires p + k !in H && x in Cut(H, p, k)
    ensures TagAt(m, Cut(H, p, k), top, x)
  {
    var H' := Cut(H, p, k);
    assert Placed(H, base, top, p) && TagAt(m, H, top, p);
    if x in H {
      assert TagAt(m, H, top, x) && Placed(H, base, top, x);
      if RawBefore(H, x) {
        var d :| d in H && H[d].st.Raw? && d + H[d].n == x;
        var d' := if d == p then p + k else d;
        assert d' in H' && H'[d'].st.Raw? && d' + H'[d'].n == x;
      }
    }
  }

  /** The owned chunk below top becomes part of top. */
  ghost function Dropped(H: Heap, p: int): Heap {
    map x | x in H && x != p :: H[x]
  }

  lemma Absorb(m: Mem, H: Heap, base: int, top: int, p: int)
    requires Body(m, H, base, top) && p in H && H[p].st.Raw? && p + H[p].n == top
    ensures Body(m, Dropped(H, p), base, p)
  {
    var H' := Dropped(H, p);
    assert Placed(H, base, top, p);
    forall x | x in H' ensures Placed(H', base, p, x) && TagAt(m, H', p, x) {
      AbsorbTag(m, H, base, top, p, x);
    }
    forall x, y | x != y ensures Apart(H', x, y) {
      assert Apart(H, x, y);
    }
  }

  lemma AbsorbTag(m: Mem, H: Heap, base: int, top: int, p: int, x: int)
    requires Body(m, H, base, top) && p in H && H[p].st.Raw? && p + H[p].n == top && x in H && x != p
    ensures Placed(Dropped(H, p), base, p, x) && TagAt(m, Dropped(H, p), p, x)
  {
    var H' := Dropped(H, p);
    assert Placed(H, base, top, p) && Placed(H, base, top, x) && TagAt(m, H, top, x) && Apart(H, p, x);
    if RawBefore(H, x) {
      var d :| d in H && H[d].st.Raw? && d + H[d].n == x;
      assert d in H' && H'[d].st.Raw? && d + H'[d].n == x;
    }
  }

  /** The lowest k bytes of top become an owned chunk. */
  ghost function Carved(H: Heap, top: int, k: int): Heap {
    H[top := Chunk(k, Raw)]
  }

  lemma Carve(m: Mem, H: Heap, base: int, top: int, k: int)
    requires Body(m, H, base, top) && base <= top && top % 16 == 0 && k % 16 == 0 && k >= 16
    ensures top !in H && Body(m, Carved(H, top, k), base, top + k)
  {
    var H' := Carved(H, top, k);
    assert top in H ==> Placed(H, base, top, top);
    assert top + k in H ==> Placed(H, base, top, top + k);
    forall x | x in H' ensures Placed(H', base, top + k, x) && TagAt(m, H', top + k, x) {
      if x != top {
        assert Placed(H, base, top, x) && TagAt(m, H, top, x);
        if RawBefore(H, x) {
          var d :| d in H && H[d].st.Raw? && d + H[d].n == x;
          assert d in H' && H'[d].st.Raw? && d + H'[d].n == x;
        }
      }
    }
    forall x, y | x != y ensures Apart(H', x, y) {
      assert Apart(H, x, y);
      if x in H { assert Placed(H, base, top, x); }
      if y in H { assert Placed(H, base, top, y); }
    }
  }

  /** Heads of owned chunks, the words in front of chunks that follow owned chunks, and the P bit of
      such a chunk (unless binned) may be rewritten. */
  ghost predicate TagWordsLoose(m: Mem, m': Mem, H: Heap) {
    forall p {:trigger p in H} :: p in H && !H[p].st.Raw? ==>
      || (m'.Head(p) == m.Head(p) && m'.PrevSize(p) == m.PrevSize(p))
      || (RawBefore(H, p) && (m'.Head(p) == m.Head(p) || m'.Head(p) == H[p].n + 1 || (!H[p].st.Binned? && m'.Head(p) == H[p].n)))
  }

  lemma TagsLoose(m: Mem, m': Mem, H: Heap, base: int, top: int)
    requires Body(m, H, base, top) && TagWordsLoose(m, m', H)
    ensures Body(m', H, base, top)
  {
    forall p | p in H ensures TagAt(m', H, top, p) {
      TagLoose(m, m', H, base, top, p);
    }
  }

  lemma TagLoose(m: Mem, m': Mem, H: Heap, base: int, top: int, p: int)
    requires Body(m, H, base, top) && TagWordsLoose(m, m', H) && p in H
    ensures TagAt(m', H, top, p)
  {
    assert TagAt(m, H, top, p) && Placed(H, base, top, p);
    var q := p + H[p].n;
    if RawBefore(H, p) {
      var d :| d in H && H[d].st.Raw? && d + H[d].n == p;
      assert Placed(H, base, top, d);
    }
    if q in H && RawBefore(H, q) {
      var d :| d in H && H[d].st.Raw? && d + H[d].n == q;
      SameEnd(H, base, top, d, p);
    }
  }

  /** A chunk in use changes hands between the client and a singly linked list. */
  lemma Reuse(m: Mem, H: Heap, H': Heap, base: int, top: int, p: int)
    requires Body(m, H, base, top) && p in H && (H[p].st.Live? || H[p].st.Listed?)
    requires p in H' && H' == H[p := H'[p]] && H'[p].n == H[p].n && (H'[p].st.Live? || H'[p].st.Listed?)
    ensures Body(m, H', base, top)
  {
    assert Placed(H, base, top, p) && TagAt(m, H, top, p);
    forall x | x in H' ensures Placed(H', base, top, x) && TagAt(m, H', top, x) {
      assert Placed(H, base, top, x) && TagAt(m, H, top, x);
      ReuseTag(m, H, H', base, top, p, x);
    }
    forall x, y | x != y ensures Apart(H', x, y) {
      assert Apart(H, x, y);
    }
  }

  lemma ReuseTag(m: Mem, H: Heap, H': Heap, base: int, top: int, p: int, x: int)
    requires Body(m, H, base, top) && p in H && (H[p].st.Live? || H[p].st.Listed?) && x in H
    requires p in H' && H' == H[p := H'[p]] && H'[p].n == H[p].n && (H'[p].st.Live? || H'[p].st.Listed?)
    ensures TagAt(m, H', top, x)
  {
    assert TagAt(m, H, top, x) && TagAt(m, H, top, p);
    if RawBefore(H, x) {
      var d :| d in H && H[d].st.Raw? && d + H[d].n == x;
      assert H'[d].st.Raw? && d + H'[d].n == x;
    }
  }
}
