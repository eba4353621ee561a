/** The second ring of the large bins survives removals and insertions. */
module NextSizeProofs {
  import opened Sizes
  import opened Memory
  import opened Heap
  import opened RingProofs

  ghost predicate NextWordsSameBut(m: Mem, m': Mem, H: Heap, f: int, k: int, s: int) {
    forall b, x {:trigger InBin(H, x, b)} :: InBin(H, x, b) && !InSmallRange(H[x].n) && x != s ==>
      (x != k ==> m'.FdNext(x) == m.FdNext(x)) && (x != f ==> m'.BkNext(x) == m.BkNext(x))
  }

  /** A chunk that is not on the ring leaves; the ring does not change. */
  lemma NextSizeDropPlain(m: Mem, m': Mem, H: Heap, H': Heap, p: int, b: int, x: int)
    requires NextSizes(m, H) && Ordered(H) && Without(H, H', p) && NextWordsSame(m, m', H)
    requires m.FdNext(p) == NULL || InSmallRange(H[p].n)
    requires InBin(H', x, b) && !InSmallRange(H'[x].n)
    ensures NextSizeAt(m', H', b, x)
  {
    WithoutInBin(H, H', p, b, x);
    assert NextSizeAt(m, H, b, x) && InBin(H, x, b) && BinOk(H, x);
    if b == UNSORTED {
    } else if m.FdNext(x) == NULL {
      var q :| Lead(m, H, q, b) && H[q].n == H[x].n && H[q].st.r < H[x].st.r;
      WithoutInBin(H, H', p, b, q);
      assert Lead(m', H', q, b);
    } else {
      var f, k := m.FdNext(x), m.BkNext(x);
      LargeStays(H, b, x, f);
      LargeStays(H, b, x, k);
      WithoutInBin(H, H', p, b, f);
      WithoutInBin(H, H', p, b, k);
      assert Lead(m', H', f, b) && Lead(m', H', k, b);
      NextLowerWithout(H, H', p, b, x, f);
    }
  }

  lemma NextLowerWithout(H: Heap, H': Heap, p: int, b: int, x: int, f: int)
    requires Without(H, H', p) && InBin(H', x, b) && InBin(H', f, b) && InBin(H, x, b) && InBin(H, f, b)
    requires NextLower(H, b, x, f) && FirstOfSize(H, b, x)
    ensures NextLower(H', b, x, f) && FirstOfSize(H', b, x)
  {
    forall q | InBin(H', q, b) ensures InBin(H, q, b) && H'[q] == H[q] {
      WithoutInBin(H, H', p, b, q);
    }
  }

  lemma NextLowerWithout'(H: Heap, H': Heap, p: int, b: int, x: int)
    requires Without(H, H', p) && InBin(H', x, b) && InBin(H, x, b) && FirstOfSize(H, b, x)
    ensures FirstOfSize(H', b, x)
  {
    forall q | InBin(H', q, b) ensures InBin(H, q, b) && H'[q] == H[q] {
      WithoutInBin(H, H', p, b, q);
    }
  }

  /** The ring skips a chunk that was the only one of its size. */
  lemma NextSizeDropLead(m: Mem, m': Mem, H: Heap, H': Heap, p: int, b: int, x: int)
    requires NextSizes(m, H) && Ordered(H) && Low(H) && Without(H, H', p)
    requires !InSmallRange(H[p].n) && m.FdNext(p) != NULL
    requires var f, k := m.FdNext(p), m.BkNext(p);
             m'.BkNext(f) == k && m'.FdNext(k) == f && NextWordsSameBut(m, m', H, f, k, NULL)
    requires forall q {:trigger InBin(H, q, H[p].st.b)} :: InBin(H, q, H[p].st.b) && q != p ==> H[q].n != H[p].n
    requires InBin(H', x, b) && !InSmallRange(H'[x].n)
    ensures NextSizeAt(m', H', b, x)
  {
    var b0, f, k := H[p].st.b, m.FdNext(p), m.BkNext(p);
    WithoutInBin(H, H', p, b, x);
    assert NextSizeAt(m, H, b0, p) && InBin(H, p, b0);
    assert NextSizeAt(m, H, b, x) && InBin(H, x, b) && BinOk(H, x);
    if b == UNSORTED {
    } else if m.FdNext(x) == NULL {
      var q :| Lead(m, H, q, b) && H[q].n == H[x].n && H[q].st.r < H[x].st.r;
      WithoutInBin(H, H', p, b, q);
      LargeStays(H, b, x, q);
      assert Lead(m', H', q, b);
    } else {
      NextSizeSkip(m, m', H, H', p, b, x);
    }
  }

  lemma NextSizeSkip(m: Mem, m': Mem, H: Heap, H': Heap, p: int, b: int, x: int)
    requires NextSizes(m, H) && Ordered(H) && Low(H) && Without(H, H', p)
    requires !InSmallRange(H[p].n) && m.FdNext(p) != NULL && H[p].st.b != UNSORTED
    requires var f, k := m.FdNext(p), m.BkNext(p);
             m'.BkNext(f) == k && m'.FdNext(k) == f && NextWordsSameBut(m, m', H, f, k, NULL)
    requires forall q {:trigger InBin(H, q, H[p].st.b)} :: InBin(H, q, H[p].st.b) && q != p ==> H[q].n != H[p].n
    requires InBin(H, x, b) && x != p && !InSmallRange(H[x].n) && m.FdNext(x) != NULL && b != UNSORTED
    ensures NextSizeAt(m', H', b, x)
  {
    var b0, f, k := H[p].st.b, m.FdNext(p), m.BkNext(p);
    assert NextSizeAt(m, H, b0, p) && InBin(H, p, b0) && NextSizeAt(m, H, b, x);
    WithoutInBin(H, H', p, b, x);
    LargeStays(H, b0, p, f);
    LargeStays(H, b0, p, k);
    assert f in H && f >= HEAP_MIN;
    var fx, kx := m.FdNext(x), m.BkNext(x);
    LargeStays(H, b, x, fx);
    LargeStays(H, b, x, kx);
    WithoutInBin(H, H', p, b, fx);
    WithoutInBin(H, H', p, b, kx);
    WithoutInBin(H, H', p, b, f);
    WithoutInBin(H, H', p, b, k);
    var fx', kx' := m'.FdNext(x), m'.BkNext(x);
    assert fx' == if x == k then f else fx;
    assert kx' == if x == f then k else kx;
    assert f == p ==> k == p;
    assert k == p ==> f == p;
    assert fx == p ==> x == k;
    assert kx == p ==> x == f;
    assert Lead(m', H', fx', b) && Lead(m', H', kx', b);
    if x == k {
      NextLowerJoin(H, H', b, k, p, f);
      NextLowerWithout'(H, H', p, b, x);
    } else {
      NextLowerWithout(H, H', p, b, x, fx);
    }
  }

  lemma NextLowerJoin(H: Heap, H': Heap, b: int, k: int, p: int, f: int)
    requires InBin(H, k, b) && InBin(H, p, b) && InBin(H, f, b) && Without(H, H', p)
    requires NextLower(H, b, k, p) && NextLower(H, b, p, f) && k != p && f != p
    requires forall q {:trigger InBin(H, q, b)} :: InBin(H, q, b) && q != p ==> H[q].n != H[p].n
    ensures InBin(H', k, b) && InBin(H', f, b) && NextLower(H', b, k, f)
  {
    forall q | InBin(H', q, b) ensures InBin(H, q, b) && H'[q] == H[q] && q != p {
      WithoutInBin(H, H', p, b, q);
    }
  }

  /** The second chunk of a size takes over the ring position of the first. */
  lemma NextSizePromote(m: Mem, m': Mem, H: Heap, H': Heap, p: int, s: int, b: int, x: int)
    requires NextSizes(m, H) && Ordered(H) && Low(H) && Promotes(m, m', H, H', p, s)
    requires InBin(H', x, b) && !InSmallRange(H'[x].n)
    ensures NextSizeAt(m', H', b, x)
  {
    var b0, f, k := H[p].st.b, m.FdNext(p), m.BkNext(p);
    WithoutInBin(H, H', p, b, x);
    WithoutInBin(H, H', p, b0, s);
    assert NextSizeAt(m, H, b0, p) && InBin(H, p, b0);
    assert NextSizeAt(m, H, b, x) && InBin(H, x, b) && BinOk(H, x);
    LargeStays(H, b0, p, f);
    LargeStays(H, b0, p, k);
    if b == UNSORTED {
    } else if x == s {
      PromotedAt(m, m', H, H', p, s);
    } else if m.FdNext(x) == NULL {
      var q :| Lead(m, H, q, b) && H[q].n == H[x].n && H[q].st.r < H[x].st.r;
      WithoutInBin(H, H', p, b, q);
      LargeStays(H, b, x, q);
      if q == p {
        assert OrdAt(H, s, x);
        assert Lead(m', H', s, b);
      } else {
        assert Lead(m', H', q, b);
      }
    } else {
      PromoteOther(m, m', H, H', p, s, b, x);
    }
  }

  ghost predicate Promotes(m: Mem, m': Mem, H: Heap, H': Heap, p: int, s: int) {
    && Without(H, H', p) && H[p].st.b != UNSORTED
    && !InSmallRange(H[p].n) && m.FdNext(p) != NULL
    && InBin(H, s, H[p].st.b) && H[s].n == H[p].n && m.FdNext(s) == NULL
    && (forall q {:trigger InBin(H, q, H[p].st.b)} :: InBin(H, q, H[p].st.b) ==> H[q].st.r <= H[p].st.r || H[s].st.r <= H[q].st.r)
    && var f, k := m.FdNext(p), m.BkNext(p);
    && NextWordsSameBut(m, m', H, f, k, s)
    && (if f == p then m'.FdNext(s) == s && m'.BkNext(s) == s
        else m'.FdNext(s) == f && m'.BkNext(s) == k && m'.BkNext(f) == s && m'.FdNext(k) == s)
  }

  lemma PromotedAt(m: Mem, m': Mem, H: Heap, H': Heap, p: int, s: int)
    requires NextSizes(m, H) && Ordered(H) && Low(H) && Promotes(m, m', H, H', p, s)
    ensures NextSizeAt(m', H', H[p].st.b, s)
  {
    var b, f, k := H[p].st.b, m.FdNext(p), m.BkNext(p);
    assert NextSizeAt(m, H, b, p) && InBin(H, p, b) && OrdAt(H, p, s);
    assert f in H && k in H;
    LargeStays(H, b, p, f);
    LargeStays(H, b, p, k);
    assert f == p <==> k == p;
    var f', k' := m'.FdNext(s), m'.BkNext(s);
    assert Lead(m', H', f', b) && Lead(m', H', k', b);
    forall q | InBin(H', q, b) ensures InBin(H, q, b) && H'[q] == H[q] && q != p && (q != s ==> H[q].st.r != H[p].st.r) {
      WithoutInBin(H, H', p, b, q);
      assert OrdAt(H, q, p);
    }
  }

  lemma PromoteOther(m: Mem, m': Mem, H: Heap, H': Heap, p: int, s: int, b: int, x: int)
    requires NextSizes(m, H) && Ordered(H) && Low(H) && Promotes(m, m', H, H', p, s)
    requires InBin(H, x, b) && x != p && x != s && !InSmallRange(H[x].n) && m.FdNext(x) != NULL && b != UNSORTED
    ensures NextSizeAt(m', H', b, x)
  {
    var b0, f, k := H[p].st.b, m.FdNext(p), m.BkNext(p);
    assert NextSizeAt(m, H, b0, p) && InBin(H, p, b0) && NextSizeAt(m, H, b, x);
    WithoutInBin(H, H', p, b, x);
    LargeStays(H, b0, p, f);
    LargeStays(H, b0, p, k);
    assert s in H && s >= HEAP_MIN;
    var fx, kx := m.FdNext(x), m.BkNext(x);
    LargeStays(H, b, x, fx);
    LargeStays(H, b, x, kx);
    WithoutInBin(H, H', p, b, fx);
    WithoutInBin(H, H', p, b, kx);
    WithoutInBin(H, H', p, b0, s);
    assert f == p <==> k == p;
    assert fx == p <==> x == k;
    assert kx == p <==> x == f;
    assert fx != s && kx != s;
    var fx', kx' := m'.FdNext(x), m'.BkNext(x);
    assert fx' == if x == k then s else fx;
    assert kx' == if x == f then s else kx;
    assert Lead(m', H', fx', b) && Lead(m', H', kx', b);
    NextLowerWithout'(H, H', p, b, x);
    if x != k {
      NextLowerWithout(H, H', p, b, x, fx);
    } else {
      forall q | InBin(H', q, b) ensures InBin(H, q, b) && H'[q] == H[q] {
        WithoutInBin(H, H', p, b, q);
      }
    }
  }

  // ---------------------------------------------------------------- insertion

  /** A chunk arrives that does not join the ring: in an unsorted or small bin, or behind the
      first chunk `q` of its own size. */
  lemma NextSizeAddPlain(m: Mem, m': Mem, H: Heap, H': Heap, p: int, b0: int, r: real, q: int, b: int, x: int)
    requires NextSizes(m, H) && Ordered(H) && With(H, H', p, b0, r) && NextWordsSame(m, m', H)
    requires !InSmallRange(H[p].n) ==> m'.FdNext(p) == NULL && m'.BkNext(p) == NULL
    requires b0 >= 64 ==> !InSmallRange(H[p].n) && Lead(m, H, q, b0) && H[q].n == H[p].n && H[q].st.r < r
    requires b0 < 64 ==> b0 == UNSORTED || InSmallRange(H[p].n)
    requires InBin(H', x, b) && !InSmallRange(H'[x].n)
    ensures NextSizeAt(m', H', b, x)
  {
    WithInBin(H, H', p, b0, r, b, x);
    if x == p {
      if b0 >= 64 {
        WithInBin(H, H', p, b0, r, b0, q);
        assert Lead(m', H', q, b0);
      }
    } else {
      assert NextSizeAt(m, H, b, x) && BinOk(H, x);
      if b == UNSORTED {
      } else if m.FdNext(x) == NULL {
        var w :| Lead(m, H, w, b) && H[w].n == H[x].n && H[w].st.r < H[x].st.r;
        WithInBin(H, H', p, b0, r, b, w);
        assert Lead(m', H', w, b);
      } else {
        var f, k := m.FdNext(x), m.BkNext(x);
        LargeStays(H, b, x, f);
        LargeStays(H, b, x, k);
        WithInBin(H, H', p, b0, r, b, f);
        WithInBin(H, H', p, b0, r, b, k);
        assert Lead(m', H', f, b) && Lead(m', H', k, b);
        if b == b0 {
          assert NextSizeAt(m, H, b, q);
          assert q != x ==> OrdAt(H, q, x);
        }
        forall w | InBin(H', w, b) ensures w == p || (InBin(H, w, b) && H'[w] == H[w]) {
          WithInBin(H, H', p, b0, r, b, w);
        }
      }
    }
  }

  ghost predicate Enters(m: Mem, m': Mem, H: Heap, H': Heap, p: int, b: int, r: real, k: int, f: int) {
    && With(H, H', p, b, r) && 64 <= b && !InSmallRange(H[p].n)
    && Lead(m, H, k, b) && m.FdNext(k) == f && Lead(m, H, f, b) && m.BkNext(f) == k
    && (forall q {:trigger InBin(H, q, b)} :: InBin(H, q, b) ==> H[q].n != H[p].n)
    && NextLower(H, b, k, f)
    && (if H[f].n < H[k].n then H[f].n < H[p].n < H[k].n else H[p].n < H[k].n || H[f].n < H[p].n)
    && m'.FdNext(p) == f && m'.BkNext(p) == k && m'.FdNext(k) == p && m'.BkNext(f) == p
    && NextWordsSameBut(m, m', H, f, k, p)
  }

  /** The first chunk of a new size joins the ring between its neighbours in size. */
  lemma NextSizeEnter(m: Mem, m': Mem, H: Heap, H': Heap, p: int, b0: int, r: real, k: int, f: int, b: int, x: int)
    requires NextSizes(m, H) && Ordered(H) && Low(H) && Enters(m, m', H, H', p, b0, r, k, f)
    requires InBin(H', x, b) && !InSmallRange(H'[x].n)
    ensures NextSizeAt(m', H', b, x)
  {
    WithInBin(H, H', p, b0, r, b, x);
    WithInBin(H, H', p, b0, r, b0, k);
    WithInBin(H, H', p, b0, r, b0, f);
    assert p in H && p >= HEAP_MIN && f in H && f >= HEAP_MIN && k in H;
    if x == p {
      EnteredAt(m, m', H, H', p, b0, r, k, f);
    } else {
      assert NextSizeAt(m, H, b, x) && BinOk(H, x) && BinOk(H, k) && BinOk(H, f);
      BinIndexRange(H[k].n);
      BinIndexRange(H[f].n);
      if b == UNSORTED {
      } else if m.FdNext(x) == NULL {
        var w :| Lead(m, H, w, b) && H[w].n == H[x].n && H[w].st.r < H[x].st.r;
        WithInBin(H, H', p, b0, r, b, w);
        LargeStays(H, b, x, w);
        assert Lead(m', H', w, b);
      } else {
        EnterOther(m, m', H, H', p, b0, r, k, f, b, x);
      }
    }
  }

  lemma EnteredAt(m: Mem, m': Mem, H: Heap, H': Heap, p: int, b: int, r: real, k: int, f: int)
    requires NextSizes(m, H) && Ordered(H) && Low(H) && Enters(m, m', H, H', p, b, r, k, f)
    ensures NextSizeAt(m', H', b, p)
  {
    assert p in H && p >= HEAP_MIN;
    assert BinOk(H, k) && BinOk(H, f);
    BinIndexRange(H[k].n);
    BinIndexRange(H[f].n);
    assert InBin(H', k, b) && InBin(H', f, b) && InBin(H', p, b);
    assert m'.FdNext(f) != NULL;
    assert Lead(m', H', k, b) && Lead(m', H', f, b);
    forall w | InBin(H', w, b) ensures w == p || (InBin(H, w, b) && H'[w] == H[w] && H[w].n != H[p].n) {
      WithInBin(H, H', p, b, r, b, w);
    }
  }

  lemma EnterOther(m: Mem, m': Mem, H: Heap, H': Heap, p: int, b0: int, r: real, k: int, f: int, b: int, x: int)
    requires NextSizes(m, H) && Ordered(H) && Low(H) && Enters(m, m', H, H', p, b0, r, k, f)
    requires InBin(H, x, b) && !InSmallRange(H[x].n) && m.FdNext(x) != NULL && b != UNSORTED
    ensures NextSizeAt(m', H', b, x)
  {
    assert NextSizeAt(m, H, b, x);
    assert p in H && p >= HEAP_MIN;
    assert BinOk(H, k) && BinOk(H, f);
    BinIndexRange(H[k].n);
    BinIndexRange(H[f].n);
    var fx, kx := m.FdNext(x), m.BkNext(x);
    LargeStays(H, b, x, fx);
    LargeStays(H, b, x, kx);
    WithInBin(H, H', p, b0, r, b, x);
    WithInBin(H, H', p, b0, r, b, fx);
    WithInBin(H, H', p, b0, r, b, kx);
    assert InBin(H', p, b0);
    var fx', kx' := m'.FdNext(x), m'.BkNext(x);
    assert fx' == if x == k then p else fx;
    assert kx' == if x == f then p else kx;
    assert x == k <==> fx == f;
    assert m'.FdNext(fx) != NULL && m'.FdNext(kx) != NULL;
    assert Lead(m', H', fx', b) && Lead(m', H', kx', b);
    forall w | InBin(H', w, b) ensures (w == p && b == b0) || (InBin(H, w, b) && H'[w] == H[w]) {
      WithInBin(H, H', p, b0, r, b, w);
    }
    if b == b0 {
      assert NextSizeAt(m, H, b, k);
      assert x != k ==> OrdAt(H, x, k);
      EnterLower(m, H, H', p, b0, r, k, f, x, fx);
    }
  }

  lemma EnterLower(m: Mem, H: Heap, H': Heap, p: int, b: int, r: real, k: int, f: int, x: int, fx: int)
    requires With(H, H', p, b, r) && InBin(H, k, b) && InBin(H, f, b) && InBin(H, x, b) && InBin(H, fx, b)
    requires NextLower(H, b, k, f) && NextLower(H, b, x, fx) && FirstOfSize(H, b, x) && FirstOfSize(H, b, k)
    requires x != k ==> H[x].st.r != H[k].st.r
    requires forall q {:trigger InBin(H, q, b)} :: InBin(H, q, b) ==> H[q].n != H[p].n
    requires if H[f].n < H[k].n then H[f].n < H[p].n < H[k].n else H[p].n < H[k].n || H[f].n < H[p].n
    requires x == k ==> fx == f
    ensures InBin(H', x, b) && InBin(H', p, b) && InBin(H', fx, b)
    ensures NextLower(H', b, x, if x == k then p else fx)
  {
    forall w | InBin(H', w, b) ensures w == p || (InBin(H, w, b) && H'[w] == H[w] && H[w].n != H[p].n) {
      WithInBin(H, H', p, b, r, b, w);
    }
  }

  /** The first chunk of an empty large bin is a ring of its own. */
  lemma NextSizeAlone(m: Mem, m': Mem, H: Heap, H': Heap, p: int, b0: int, r: real, b: int, x: int)
    requires NextSizes(m, H) && Ordered(H) && Low(H) && With(H, H', p, b0, r) && NextWordsSame(m, m', H)
    requires 64 <= b0 && m'.FdNext(p) == p && m'.BkNext(p) == p
    requires forall q {:trigger InBin(H, q, b0)} :: !InBin(H, q, b0)
    requires InBin(H', x, b) && !InSmallRange(H'[x].n)
    ensures NextSizeAt(m', H', b, x)
  {
    WithInBin(H, H', p, b0, r, b, x);
    forall w ensures InBin(H', w, b0) <==> w == p {
      WithInBin(H, H', p, b0, r, b0, w);
    }
    assert p in H && p >= HEAP_MIN;
    if x == p {
      assert Lead(m', H', p, b0);
    } else {
      assert NextSizeAt(m, H, b, x) && BinOk(H, x);
      if b == UNSORTED {
      } else if m.FdNext(x) == NULL {
        var w :| Lead(m, H, w, b) && H[w].n == H[x].n && H[w].st.r < H[x].st.r;
        WithInBin(H, H', p, b0, r, b, w);
        assert Lead(m', H', w, b);
      } else {
        var f, k := m.FdNext(x), m.BkNext(x);
        LargeStays(H, b, x, f);
        LargeStays(H, b, x, k);
        WithInBin(H, H', p, b0, r, b, f);
        WithInBin(H, H', p, b0, r, b, k);
        assert Lead(m', H', f, b) && Lead(m', H', k, b);
        forall w | InBin(H', w, b) ensures InBin(H, w, b) && H'[w] == H[w] {
          WithInBin(H, H', p, b0, r, b, w);
        }
      }
    }
  }
}
