/** Growing, cutting and writing to a block in place. The P bit of the block is kept as it is: the chunk
    below it may be free. */
module Resize {
  import opened Sizes
  import opened Memory
  import opened Heap
  import opened RingProofs
  import opened LayoutProofs
  import opened Steps
  import opened Arena
  import opened Free
  import opened System
  import opened ExactFit

  // ---------------------------------------------------------------- growing into an owned chunk

  ghost function Grown(H: Heap, p: int, q: int): Heap
    requires p in H && q in H
  {
    (map x | x in H && x != q :: H[x])[p := Chunk(H[p].n + H[q].n, Live)]
  }

  /** The head of `p` covers `q` as well, and the P bit behind is set. */
  ghost predicate GrownWords(m: Mem, m': Mem, H: Heap, top: int, p: int, q: int)
    requires p in H && q in H
  {
    var q2 := q + H[q].n;
    && m'.Head(p) == m.Head(p) + H[q].n
    && (q2 in H ==> !H[q2].st.Raw? && m'.Head(q2) == H[q2].n + 1)
    && (forall a {:trigger m'.e(a)} :: m'.e(a) == m.e(a))
    && (forall a {:trigger m'.o(a)} :: a != p && a != q2 && a != top ==> m'.o(a) == m.o(a))
  }

  ghost predicate Growable(m: Mem, m': Mem, H: Heap, base: int, top: int, p: int, q: int) {
    && Body(m, H, base, top) && p in H && H[p].st.Live? && q in H && q == p + H[p].n && H[q].st.Raw?
    && GrownWords(m, m', H, top, p, q)
  }

  lemma GrowPlaced(H: Heap, base: int, top: int, p: int, q: int, x: int)
    requires Tiled(H, base, top) && p in H && H[p].st.Live? && q in H && q == p + H[p].n && H[q].st.Raw? && x in Grown(H, p, q)
    ensures Placed(Grown(H, p, q), base, top, x)
  {
    assert Placed(H, base, top, x) && Placed(H, base, top, p) && Placed(H, base, top, q);
    EndsOnce(H, base, top, x, p);
  }

  /** Where the heads of the chunk `x` and of what follows it stand. */
  lemma GrowHeads(m: Mem, m': Mem, H: Heap, base: int, top: int, p: int, q: int, x: int)
    requires Growable(m, m', H, base, top, p, q) && x in H && x != p && x != q
    ensures x != top && x + H[x].n != q && x + H[x].n != q + H[q].n
    ensures x != q + H[q].n ==> m'.Head(x) == m.Head(x)
    ensures x == q + H[q].n ==> !H[x].st.Gap?
  {
    assert Placed(H, base, top, x) && Placed(H, base, top, p) && Placed(H, base, top, q);
    EndsOnce(H, base, top, x, p);
    EndsOnce(H, base, top, x, q);
  }

  lemma GrowTag(m: Mem, m': Mem, H: Heap, base: int, top: int, p: int, q: int, x: int)
    requires Growable(m, m', H, base, top, p, q) && x in Grown(H, p, q) && x != p
    ensures TagAt(m', Grown(H, p, q), top, x)
  {
    hide Tiled;
    var H' := Grown(H, p, q);
    var q2, y := q + H[q].n, x + H[x].n;
    GrowHeads(m, m', H, base, top, p, q, x);
    SealedBelow(H, base, top, x);
    assert TagAt(m, H, top, x);
    if y in H && y != p {
      GrowHeads(m, m', H, base, top, p, q, y);
    }
    if RawBefore(H, x) && x != q2 {
      var d :| d in H && H[d].st.Raw? && d + H[d].n == x;
      assert d in H' && H'[d].st.Raw? && d + H'[d].n == x;
    }
  }

  lemma SealedBelow(H: Heap, base: int, top: int, x: int)
    requires Tiled(H, base, top) && x in H
    ensures x < x + H[x].n <= top
  {
    assert Placed(H, base, top, x);
  }

  lemma GrowTagSelf(m: Mem, m': Mem, H: Heap, base: int, top: int, p: int, q: int)
    requires Growable(m, m', H, base, top, p, q)
    ensures TagAt(m', Grown(H, p, q), top, p)
  {
    var H' := Grown(H, p, q);
    assert Placed(H, base, top, p) && Placed(H, base, top, q) && TagAt(m, H, top, p);
    if RawBefore(H, p) {
      var d :| d in H && H[d].st.Raw? && d + H[d].n == p;
      assert d in H' && H'[d].st.Raw? && d + H'[d].n == p;
    }
  }

  lemma GrowBody(m: Mem, m': Mem, H: Heap, base: int, top: int, p: int, q: int)
    requires Growable(m, m', H, base, top, p, q)
    ensures Body(m', Grown(H, p, q), base, top)
  {
    var H' := Grown(H, p, q);
    forall x | x in H' ensures Placed(H', base, top, x) && TagAt(m', H', top, x) {
      GrowPlaced(H, base, top, p, q, x);
      if x == p {
        GrowTagSelf(m, m', H, base, top, p, q);
      } else {
        GrowTag(m, m', H, base, top, p, q, x);
      }
    }
    assert Placed(H, base, top, p) && Placed(H, base, top, q) && Apart(H, p, q);
    forall x, y | x != y ensures Apart(H', x, y) {
      assert Apart(H, x, y);
      assert x != q ==> Apart(H, x, q);
      assert y != q ==> Apart(H, y, q);
    }
  }

  lemma GrowStep(m: Mem, m': Mem, H: Heap, base: int, top: int, p: int, q: int)
    requires base >= HEAP_MIN && Links(m, H) && Growable(m, m', H, base, top, p, q) && base <= top
    ensures Core(m', Grown(H, p, q), base, top)
  {
    hide Links;
    var q2 := q + H[q].n;
    GrowBody(m, m', H, base, top, p, q);
    assert Placed(H, base, top, q);
    BoundaryOutside(H, base, top, p);
    BoundaryOutside(H, base, top, q2);
    BoundaryOutside(H, base, top, top);
    LooseLinks(m, m', H, base, top, {p, q2, top});
    SameHeapFrames(m, m', H, Grown(H, p, q));
  }

  // ---------------------------------------------------------------- cutting

  ghost function CutLive(H: Heap, p: int, nb: int): Heap
    requires p in H
  {
    H[p := Chunk(nb, Live)][p + nb := Chunk(H[p].n - nb, Raw)]
  }

  ghost predicate Cuttable(m: Mem, m': Mem, H: Heap, base: int, top: int, p: int, nb: int) {
    && Body(m, H, base, top) && p in H && H[p].st.Live? && nb % 16 == 0 && MINSIZE <= nb <= H[p].n - 16
    && m'.Head(p) == m.Head(p) - H[p].n + nb
    && (forall a {:trigger m'.e(a)} :: m'.e(a) == m.e(a))
    && (forall a {:trigger m'.o(a)} :: a != p && a != p + nb ==> m'.o(a) == m.o(a))
  }

  lemma CutFree(H: Heap, base: int, top: int, p: int, nb: int)
    requires Tiled(H, base, top) && p in H && nb % 16 == 0 && 16 <= nb <= H[p].n - 16
    ensures p + nb !in H
  {
    assert Placed(H, base, top, p);
    assert p + nb in H ==> Apart(H, p, p + nb) && Placed(H, base, top, p + nb);
  }

  lemma CutTag(m: Mem, m': Mem, H: Heap, base: int, top: int, p: int, nb: int, x: int)
    requires Cuttable(m, m', H, base, top, p, nb) && x in CutLive(H, p, nb) && p + nb !in H
    ensures Placed(CutLive(H, p, nb), base, top, x) && TagAt(m', CutLive(H, p, nb), top, x)
  {
    var H' := CutLive(H, p, nb);
    assert Placed(H, base, top, p) && TagAt(m, H, top, p);
    assert H'[p + nb].st.Raw?;
    if x in H {
      assert Placed(H, base, top, x) && TagAt(m, H, top, x);
      EndsOnce(H, base, top, x, p);
      if RawBefore(H, x) {
        var d :| d in H && H[d].st.Raw? && d + H[d].n == x;
        assert d in H' && H'[d].st.Raw? && d + H'[d].n == x;
      }
    }
  }

  lemma CutLiveStep(m: Mem, m': Mem, H: Heap, base: int, top: int, p: int, nb: int)
    requires base >= HEAP_MIN && Links(m, H) && Cuttable(m, m', H, base, top, p, nb)
    ensures p + nb !in H && Core(m', CutLive(H, p, nb), base, top)
  {
    hide Links;
    var H' := CutLive(H, p, nb);
    CutFree(H, base, top, p, nb);
    forall x | x in H' ensures Placed(H', base, top, x) && TagAt(m', H', top, x) {
      CutTag(m, m', H, base, top, p, nb, x);
    }
    assert Placed(H, base, top, p);
    forall x, y | x != y ensures Apart(H', x, y) {
      assert Apart(H, x, y);
      assert x != p ==> Apart(H, p, x);
      assert y != p ==> Apart(H, p, y);
    }
    RawOutside(H, base, top, p, p);
    RawOutside(H, base, top, p, p + nb);
    LooseLinks(m, m', H, base, top, {p, p + nb});
    SameHeapFrames(m, m', H, H');
  }

  // ---------------------------------------------------------------- writing

  /** `m'` differs from `m` only in user words of the block `p` of size n. */
  ghost predicate WroteIn(m: Mem, m': Mem, p: int, n: int) {
    && (forall a {:trigger m'.e(a)} :: !(p + 16 <= a <= p + n) ==> m'.e(a) == m.e(a))
    && (forall a {:trigger m'.o(a)} :: !(p + 16 <= a < p + n) ==> m'.o(a) == m.o(a))
  }

  lemma WriteTag(m: Mem, m': Mem, H: Heap, base: int, top: int, p: int, x: int)
    requires Body(m, H, base, top) && p in H && H[p].st.Live? && WroteIn(m, m', p, H[p].n) && x in H
    ensures TagAt(m', H, top, x)
  {
    assert Placed(H, base, top, x) && TagAt(m, H, top, x) && Placed(H, base, top, p) && TagAt(m, H, top, p);
    assert x != p ==> Apart(H, x, p);
    EndsOnce(H, base, top, x, p);
    var q := x + H[x].n;
    assert q in H ==> Placed(H, base, top, q);
    assert q in H && q != p ==> Apart(H, q, p);
  }

  lemma WriteCore(m: Mem, m': Mem, H: Heap, base: int, top: int, p: int)
    requires Core(m, H, base, top) && p in H && H[p].st.Live? && WroteIn(m, m', p, H[p].n)
    ensures Core(m', H, base, top)
  {
    hide Links;
    forall x | x in H ensures TagAt(m', H, top, x) {
      WriteTag(m, m', H, base, top, p, x);
    }
    var n := H[p].n;
    var A := set a {:trigger Outside(H, a)} | p <= a <= p + n;
    forall a | a in A ensures Outside(H, a) {
      RawOutside(H, base, top, p, a);
    }
    LooseLinks(m, m', H, base, top, A);
    SameHeapFrames(m, m', H, H);
  }

  /** A client that writes within the usable bytes of a block it holds, the word it shares with the next
      chunk included, disturbs neither the arena nor any other block. */
  lemma WriteSound(s: State, m': Mem, p: int)
    requires Sound(s) && p in LiveOf(s.H) && WroteIn(s.m, m', p, LiveOf(s.H)[p])
    ensures Sound(s.(m := m')) && Kept(s.m, m', LiveOf(s.H) - {p})
  {
    hide Links, Marks, Slots;
    WriteCore(s.m, m', s.H, s.base, s.top, p);
    assert Placed(s.H, s.base, s.top, p);
    var L := LiveOf(s.H) - {p};
    forall x | x in L ensures SameUser(s.m, m', x, L[x]) {
      assert Placed(s.H, s.base, s.top, x) && Apart(s.H, x, p);
    }
  }

  // ---------------------------------------------------------------- the same for the whole arena

  /** `set_head_size`: a new size under the flags that are there. */
  function SetHeadSize(m: Mem, p: int, n: int): Mem {
    m.SetHead(p, n + m.Head(p) % 8)
  }

  /** The live block `p` of size n can be given newsize bytes: either it has them, or the owned chunk
      behind it makes up for the rest. */
  ghost predicate Stretch(s: State, p: int, n: int, newsize: int) {
    && Sound(s) && p in s.H && s.H[p] == Chunk(n, Live)
    && (if newsize == n then NoRaw(s.H) else
          var q := p + n; q in s.H && s.H[q].st.Raw? && OnlyRaw(s.H, q) && newsize == n + s.H[q].n)
  }

  function StretchWords(m: Mem, p: int, newsize: int): Mem {
    SetHeadSize(m, p, newsize).SetPrevInuse(p + newsize)
  }

  ghost function StretchHeap(H: Heap, p: int, n: int, newsize: int): Heap
    requires p in H && (newsize != n ==> p + n in H)
  {
    if newsize == n then H else Grown(H, p, p + n)
  }

  /** A live block's head, and the P bit behind it. */
  lemma LiveHead(s: State, p: int)
    requires Sound(s) && p in s.H && s.H[p].st.Live?
    ensures s.m.Head(p) == s.H[p].n + s.m.Head(p) % 8 && s.m.Head(p) % 8 <= 1 && s.H[p].n % 16 == 0 && p % 16 == 0
    ensures s.top != Hdr(UNSORTED) && s.base <= p && p >= HEAP_MIN && p + s.H[p].n <= s.top
    ensures var q := p + s.H[p].n; (q == s.top || q in s.H) && (q in s.H ==> !s.H[q].st.Gap?)
    ensures var q := p + s.H[p].n; q in s.H && !s.H[q].st.Raw? ==> s.m.Head(q) == s.H[q].n + 1 && s.m.PrevInuse(q)
  {
    hide Links, Marks, Slots, Fresh;
    assert Placed(s.H, s.base, s.top, p) && TagAt(s.m, s.H, s.top, p);
    HeadDecodes(s.m, p, s.H[p].n);
    WordDecodes(s.m.Head(p), s.H[p].n);
    var q := p + s.H[p].n;
    if q in s.H && !s.H[q].st.Raw? {
      assert Placed(s.H, s.base, s.top, q);
      HeadDecodes(s.m, q, s.H[q].n);
    }
  }

  lemma TopInuse(s: State)
    requires Sound(s) && s.top != Hdr(UNSORTED)
    ensures s.m.PrevInuse(s.top)
  {
    TopSizeFacts(s);
    PageMultiple(s.sbrkBase + s.systemMem, s.top);
    HeadDecodes(s.m, s.top, s.sbrkBase + s.systemMem - s.top);
  }

  lemma StretchSame(s: State, p: int, n: int)
    requires Stretch(s, p, n, n)
    ensures var m' := StretchWords(s.m, p, n); Sound(s.(m := m')) && Kept(s.m, m', LiveOf(s.H)) && LiveOf(s.H) == LiveOf(s.H)[p := n]
  {
    LiveHead(s, p);
    TopInuse(s);
    assert NoRaw(s.H);
    WordsSound(s, StretchWords(s.m, p, n));
  }

  lemma StretchGrown(s: State, p: int, n: int, newsize: int)
    requires Stretch(s, p, n, newsize) && newsize != n
    ensures var m', H' := StretchWords(s.m, p, newsize), Grown(s.H, p, p + n);
            && Sound(s.(m := m', H := H')) && Kept(s.m, m', LiveOf(s.H)) && LiveOf(H') == LiveOf(s.H)[p := newsize]
            && NoRaw(H') && SameListed(s.H, H')
  {
    hide Links, Slots;
    var q := p + n;
    var m', H' := StretchWords(s.m, p, newsize), Grown(s.H, p, q);
    LiveHead(s, p);
    TopInuse(s);
    StretchWritten(s, p, n, newsize);
    GrowStep(s.m, m', s.H, s.base, s.top, p, q);
    RestFrame(s.H, H', s.binmap, s.slots);
    StretchKept(s, m', p, newsize);
  }

  lemma StretchWritten(s: State, p: int, n: int, newsize: int)
    requires Stretch(s, p, n, newsize) && newsize != n
    ensures var m' := StretchWords(s.m, p, newsize);
            && Growable(s.m, m', s.H, s.base, s.top, p, p + n) && m'.Head(s.top) == s.m.Head(s.top) && m'.e == s.m.e
            && (forall a {:trigger m'.o(a)} :: a != p && a != p + newsize ==> m'.o(a) == s.m.o(a))
            && p + newsize <= s.top && newsize > n && (p + newsize == s.top || p + newsize in s.H)
  {
    hide Links, Marks, Slots, Fresh;
    var q, q2 := p + n, p + newsize;
    LiveHead(s, p);
    TopInuse(s);
    assert Placed(s.H, s.base, s.top, q);
    if q2 in s.H {
      assert Placed(s.H, s.base, s.top, q2) && TagAt(s.m, s.H, s.top, q2);
      assert !s.H[q2].st.Raw? && !s.H[q2].st.Gap?;
      HeadDecodes(s.m, q2, s.H[q2].n);
    }
  }

  /** Stores to the heads of `p` and of what follows its new end touch no user word. */
  lemma StretchKept(s: State, m': Mem, p: int, newsize: int)
    requires Sound(s) && p in s.H && s.H[p].st.Live? && m'.e == s.m.e && p + newsize <= s.top
    requires newsize > s.H[p].n && (p + newsize == s.top || p + newsize in s.H)
    requires forall a {:trigger m'.o(a)} :: a != p && a != p + newsize ==> m'.o(a) == s.m.o(a)
    ensures Kept(s.m, m', LiveOf(s.H)) && Fresh(m', s.mark)
  {
    hide Links, Marks, Slots;
    var L := LiveOf(s.H);
    assert Placed(s.H, s.base, s.top, p);
    assert p + newsize in s.H ==> Placed(s.H, s.base, s.top, p + newsize);
    forall x | x in L ensures SameUser(s.m, m', x, L[x]) {
      assert Placed(s.H, s.base, s.top, x);
      assert x != p ==> Apart(s.H, x, p);
      assert x != p + newsize ==> Apart(s.H, x, p + newsize);
    }
    LiveHead(s, p);
    FreshKeeps(s, m');
  }

  lemma StretchSound(s: State, p: int, n: int, newsize: int)
    requires Stretch(s, p, n, newsize)
    ensures var m', H' := StretchWords(s.m, p, newsize), StretchHeap(s.H, p, n, newsize);
            && Sound(s.(m := m', H := H')) && Kept(s.m, m', LiveOf(s.H)) && LiveOf(H') == LiveOf(s.H)[p := newsize]
            && NoRaw(H') && SameListed(s.H, H')
  {
    hide Sound, Kept, LiveOf;
    if newsize == n {
      StretchSame(s, p, n);
    } else {
      StretchGrown(s, p, n, newsize);
    }
  }

  // ---------------------------------------------------------------- cutting a live block

  ghost predicate Trimmable(s: State, p: int, nb: int) {
    && Sound(s) && p in s.H && s.H[p].st.Live? && NoRaw(s.H) && nb % 16 == 0 && MINSIZE <= nb <= s.H[p].n - 16
  }

  /** The block keeps its first nb bytes; the rest is owned by the operation. */
  lemma TrimRawSound(s: State, p: int, nb: int)
    requires Trimmable(s, p, nb)
    ensures var m', H' := SetHeadSize(s.m, p, nb), CutLive(s.H, p, nb);
            && p + nb !in s.H && Sound(s.(m := m', H := H')) && OnlyRaw(H', p + nb) && SameListed(s.H, H')
            && LiveOf(H') == LiveOf(s.H)[p := nb] && Kept(s.m, m', LiveOf(H'))
  {
    hide Links, Slots;
    var m', H' := SetHeadSize(s.m, p, nb), CutLive(s.H, p, nb);
    LiveHead(s, p);
    assert Placed(s.H, s.base, s.top, p);
    CutLiveStep(s.m, m', s.H, s.base, s.top, p, nb);
    RestFrame(s.H, H', s.binmap, s.slots);
    TrimKept(s, m', p, nb);
  }

  lemma TrimKept(s: State, m': Mem, p: int, nb: int)
    requires Trimmable(s, p, nb) && m'.e == s.m.e && p + nb !in s.H
    requires forall a {:trigger m'.o(a)} :: a != p && a != p + nb ==> m'.o(a) == s.m.o(a)
    ensures Kept(s.m, m', LiveOf(s.H)[p := nb]) && Fresh(m', s.mark)
  {
    hide Links, Marks, Slots;
    var L := LiveOf(s.H)[p := nb];
    assert Placed(s.H, s.base, s.top, p);
    forall x | x in L ensures SameUser(s.m, m', x, L[x]) {
      assert Placed(s.H, s.base, s.top, x);
      assert x != p ==> Apart(s.H, x, p);
    }
    LiveHead(s, p);
    FreshKeeps(s, m');
  }

  /** The two heads written when a block is split into two blocks. */
  function SplitLiveWords(m: Mem, p: int, n: int, nb: int): Mem {
    SetHeadSize(m, p, nb).SetHead(p + nb, n - nb + 1)
  }

  ghost function SplitLiveHeap(H: Heap, p: int, nb: int): Heap
    requires p in H
  {
    H[p := Chunk(nb, Live)][p + nb := Chunk(H[p].n - nb, Live)]
  }

  lemma SplitLiveCore(s: State, p: int, nb: int)
    requires Trimmable(s, p, nb) && s.H[p].n - nb >= MINSIZE
    ensures p + nb !in s.H && Core(SplitLiveWords(s.m, p, s.H[p].n, nb), SplitLiveHeap(s.H, p, nb), s.base, s.top)
  {
    hide Links, Marks, Slots, Fresh;
    var n, r := s.H[p].n, p + nb;
    var m', H1 := SplitLiveWords(s.m, p, n, nb), CutLive(s.H, p, nb);
    LiveHead(s, p);
    assert Placed(s.H, s.base, s.top, p);
    CutLiveStep(s.m, m', s.H, s.base, s.top, p, nb);
    assert p + n in s.H ==> Placed(s.H, s.base, s.top, p + n);
    GiveStep(m', H1, s.base, s.top, r);
    assert SplitLiveHeap(s.H, p, nb) == H1[r := Chunk(H1[r].n, Live)];
  }

  /** A block is split into two blocks, both still in use. */
  lemma SplitLiveSound(s: State, p: int, nb: int)
    requires Trimmable(s, p, nb) && s.H[p].n - nb >= MINSIZE
    ensures var n := s.H[p].n; var m', H' := SplitLiveWords(s.m, p, n, nb), SplitLiveHeap(s.H, p, nb);
            && p + nb !in s.H && Sound(s.(m := m', H := H')) && NoRaw(H') && SameListed(s.H, H')
            && LiveOf(H') == LiveOf(s.H)[p := nb][p + nb := n - nb] && Kept(s.m, m', LiveOf(s.H)[p := nb])
            && m'.Size(p + nb) == n - nb && p in LiveOf(s.H)
  {
    hide Links, Slots, Core;
    var n := s.H[p].n;
    var m', H' := SplitLiveWords(s.m, p, n, nb), SplitLiveHeap(s.H, p, nb);
    SplitLiveCore(s, p, nb);
    RestFrame(s.H, H', s.binmap, s.slots);
    LiveHead(s, p);
    TrimKept(s, m', p, nb);
    HeadDecodes(m', p + nb, n - nb);
  }

  // ---------------------------------------------------------------- growing into top

  ghost predicate Topmost(s: State, p: int, nb: int) {
    && Sound(s) && NoRaw(s.H) && p in s.H && s.H[p].st.Live? && p + s.H[p].n == s.top && nb % 16 == 0 && nb > s.H[p].n
    && s.H[p].n + s.m.Size(s.top) >= nb + MINSIZE && s.sbrkBase + s.systemMem <= s.mark.at
  }

  lemma GrowTopCore(s: State, p: int, nb: int)
    requires Topmost(s, p, nb)
    ensures var m' := SplitLiveWords(s.m, p, s.H[p].n + s.m.Size(s.top), nb);
            Core(m', s.H[p := Chunk(nb, Live)], s.base, p + nb)
  {
    hide Links, Marks, Slots, Fresh, TopOk;
    var n := s.H[p].n;
    var m', H1 := SplitLiveWords(s.m, p, n + s.m.Size(s.top), nb), Carved(s.H, s.top, nb - n);
    LiveHead(s, p);
    TopSizeFacts(s);
    CarveStep(s.m, s.H, s.base, s.top, nb - n);
    assert p + nb in H1 ==> Placed(H1, s.base, p + nb, p + nb);
    GrowStep(s.m, m', H1, s.base, p + nb, p, s.top);
    assert Grown(H1, p, s.top) == s.H[p := Chunk(nb, Live)];
  }

  lemma GrowTopHead(s: State, p: int, nb: int)
    requires Topmost(s, p, nb)
    ensures var m' := SplitLiveWords(s.m, p, s.H[p].n + s.m.Size(s.top), nb);
            TopOk(m', s.H[p := Chunk(nb, Live)], s.base, p + nb, s.sbrkBase, s.systemMem) && p + nb < s.mark.at
  {
    hide Core, Marks, Slots, Fresh, SetHeadSize;
    LiveHead(s, p);
    TopSizeFacts(s);
    SixteenSum(p, nb);
    TopWritten(s.m, p, s.H[p].n + s.m.Size(s.top), nb);
  }

  /** Where top stands after a split. */
  lemma TopWritten(m: Mem, p: int, n: int, nb: int)
    ensures SplitLiveWords(m, p, n, nb).Head(p + nb) == n - nb + 1
  {}

  /** The last block is enlarged at the expense of top. */
  lemma GrowTopSound(s: State, p: int, nb: int)
    requires Topmost(s, p, nb)
    ensures var m', H' := SplitLiveWords(s.m, p, s.H[p].n + s.m.Size(s.top), nb), s.H[p := Chunk(nb, Live)];
            && Sound(s.(m := m', H := H', top := p + nb)) && NoRaw(H') && SameListed(s.H, H')
            && LiveOf(H') == LiveOf(s.H)[p := nb] && Kept(s.m, m', LiveOf(s.H))
  {
    hide Slots, Core, TopOk, Fresh;
    var m', H' := SplitLiveWords(s.m, p, s.H[p].n + s.m.Size(s.top), nb), s.H[p := Chunk(nb, Live)];
    GrowTopCore(s, p, nb);
    GrowTopHead(s, p, nb);
    RestFrame(s.H, H', s.binmap, s.slots);
    GrowTopKept(s, m', p, nb);
  }

  lemma GrowTopKept(s: State, m': Mem, p: int, nb: int)
    requires Topmost(s, p, nb) && m' == SplitLiveWords(s.m, p, s.H[p].n + s.m.Size(s.top), nb)
    ensures Kept(s.m, m', LiveOf(s.H)) && Fresh(m', s.mark)
  {
    hide Links, Marks, Slots;
    var L := LiveOf(s.H);
    TopSizeFacts(s);
    assert Placed(s.H, s.base, s.top, p);
    forall x | x in L ensures SameUser(s.m, m', x, L[x]) {
      assert Placed(s.H, s.base, s.top, x);
      assert x != p ==> Apart(s.H, x, p);
    }
  }
}
