/** Splitting a free chunk: the request is cut from its low end, the remainder goes to the front of
    the unsorted list. */
module Split {
  import opened Sizes
  import opened Memory
  import opened Heap
  import opened RingProofs
  import opened LayoutProofs
  import opened Steps
  import opened UnlinkProofs
  import opened Arena
  import opened Free
  import opened ExactFit

  /** The owned chunk `p` is large enough for nb bytes and a remainder, and P is clear behind it. */
  ghost predicate Splittable(s: State, p: int, nb: int) {
    && Sound(s) && p in s.H && s.H[p].st.Raw? && OnlyRaw(s.H, p)
    && nb % 16 == 0 && nb >= MINSIZE && s.H[p].n - nb >= MINSIZE
    && var q := p + s.H[p].n; q in s.H && s.m.Head(q) == s.H[q].n
  }

  /** The words after a split: the head of the block, and the remainder placed in the unsorted list. */
  ghost predicate SplitWritten(m: Mem, m': Mem, p: int, size: int, nb: int) {
    Placing(m.SetHead(p, nb + 1), m', p + nb, size - nb, Hdr(UNSORTED), m.Fd(Hdr(UNSORTED)))
  }

  ghost function CutState(s: State, p: int, nb: int): State
    requires p in s.H
  {
    s.(m := s.m.SetHead(p, nb + 1), H := Cut(s.H, p, nb)[p := Chunk(nb, Live)])
  }

  ghost function SplitHeap(s: State, p: int, nb: int): Heap
    requires Splittable(s, p, nb)
  {
    CutSound(s, p, nb);
    PlacedHeap(CutState(s, p, nb), p + nb, UNSORTED)
  }

  /** Of the chunk p the first nb bytes are in use and the others an unsorted chunk; nothing else has changed. */
  ghost predicate Divided(H: Heap, H': Heap, p: int, nb: int) {
    && p in H && p + nb !in H && p + nb in H' && InBin(H', p + nb, UNSORTED) && H'[p + nb].n == H[p].n - nb
    && H' == H[p := Chunk(nb, Live)][p + nb := H'[p + nb]]
  }

  lemma CutSound(s: State, p: int, nb: int)
    requires Splittable(s, p, nb)
    ensures var s1 := CutState(s, p, nb);
            && Sound(s1) && p + nb !in s.H && p + nb in s1.H && OnlyRaw(s1.H, p + nb)
            && Placeable(s1.m, s1.H, p + nb, UNSORTED) && s1.H[p + nb].n == s.H[p].n - nb
            && LiveOf(s1.H) == LiveOf(s.H)[p := nb] && p !in LiveOf(s.H) && Kept(s.m, s1.m, LiveOf(s.H))
            && SameListed(s.H, s1.H)
  {
    hide Links, Slots, Marks;
    var s1 := CutState(s, p, nb);
    var H1 := Cut(s.H, p, nb);
    assert Placed(s.H, s.base, s.top, p);
    SplitStep(s.m, s.H, s.base, s.top, p, nb);
    RawOutside(H1, s.base, s.top, p, p);
    LooseStores(s.m, s1.m, H1, s.base, s.top, {p});
    GiveStep(s1.m, H1, s.base, s.top, p);
    CutRest(s, p, nb);
    TouchesKept(s.m, s1.m, s.H, s.base, s.top, p, p, p, p);
    FreshKeeps(s, s1.m);
  }

  lemma CutRest(s: State, p: int, nb: int)
    requires Splittable(s, p, nb) && p + nb !in s.H
    ensures var s1 := CutState(s, p, nb);
            && Marks(s.binmap, s1.H) && Slots(s.slots, s1.H) && SameListed(s.H, s1.H)
            && LiveOf(s1.H) == LiveOf(s.H)[p := nb] && OnlyRaw(s1.H, p + nb)
  {
    hide Core, TopOk, Fresh;
    var s1 := CutState(s, p, nb);
    RestFrame(s.H, s1.H, s.binmap, s.slots);
  }

  lemma SplitSound(s: State, p: int, nb: int, m': Mem)
    requires Splittable(s, p, nb) && SplitWritten(s.m, m', p, s.H[p].n, nb)
    ensures var H' := SplitHeap(s, p, nb);
            && Sound(s.(m := m', H := H')) && NoRaw(H') && SameListed(s.H, H')
            && LiveOf(H') == LiveOf(s.H)[p := nb] && p !in LiveOf(s.H) && Kept(s.m, m', LiveOf(s.H))
            && Divided(s.H, H', p, nb)
  {
    hide Sound, Kept, LiveOf, Placing, OnlyRaw, SameListed, Divided;
    var s1, r := CutState(s, p, nb), p + nb;
    CutSound(s, p, nb);
    PlacedSound(s1, m', r, UNSORTED);
    LiveSub(s1.m, m', s.H, p, nb, s1.H);
    KeptTrans(s.m, s1.m, m', LiveOf(s.H));
    SplitRest(s, p, nb);
  }

  lemma SplitRest(s: State, p: int, nb: int)
    requires Splittable(s, p, nb)
    ensures var H' := SplitHeap(s, p, nb); NoRaw(H') && SameListed(s.H, H') && Divided(s.H, H', p, nb)
  {
    hide Sound, Kept;
    CutSound(s, p, nb);
    SameListedTrans(s.H, CutState(s, p, nb).H, SplitHeap(s, p, nb));
  }

  /** The stores of a split, in the order of `_int_malloc`. */
  function SplitWords(m: Mem, p: int, size: int, nb: int): Mem {
    var r, u := p + nb, Hdr(UNSORTED);
    var m1 := m.Insert(r, u, m.Fd(u));
    var m2 := if InSmallRange(size - nb) then m1 else m1.SetFdNext(r, NULL).SetBkNext(r, NULL);
    m2.SetHead(p, nb + 1).SetHead(r, size - nb + 1).SetPrevSize(r + (size - nb), size - nb)
  }

  lemma SplitInuse(m: Mem, p: int, size: int, nb: int)
    requires nb % 16 == 0 && nb > 0
    ensures SplitWords(m, p, size, nb).PrevInuse(p)
  {
    hide Mem.Insert, Mem.SetHead, Mem.SetPrevSize, Mem.SetFdNext, Mem.SetBkNext;
    var r, u := p + nb, Hdr(UNSORTED);
    var m1 := m.Insert(r, u, m.Fd(u));
    var m2 := if InSmallRange(size - nb) then m1 else m1.SetFdNext(r, NULL).SetBkNext(r, NULL);
    CutHead(m2, p, nb, r, size - nb + 1, r + (size - nb), size - nb);
  }

  lemma SplitStores(s: State, p: int, nb: int)
    requires Splittable(s, p, nb)
    ensures SplitWritten(s.m, SplitWords(s.m, p, s.H[p].n, nb), p, s.H[p].n, nb)
  {
    hide Sound;
    CutSound(s, p, nb);
    var s1, r, n := CutState(s, p, nb), p + nb, s.H[p].n;
    Occupied(s, p);
    SplitFacts(s1, p, r, n - nb);
    SplitStores'(s.m, p, n, nb);
  }

  lemma SplitFacts(s1: State, p: int, r: int, n: int)
    requires Sound(s1) && r in s1.H && Placeable(s1.m, s1.H, r, UNSORTED) && s1.H[r].n == n && p in s1.H
    ensures var u, fwd := Hdr(UNSORTED), s1.m.Fd(Hdr(UNSORTED));
            && r >= HEAP_MIN && fwd != r && u != r && fwd + 16 != r && u + 16 != r
            && fwd + 16 != r + n && u + 16 != r + n && (fwd != u ==> fwd >= HEAP_MIN)
            && (!InSmallRange(n) ==> fwd + 16 != r + 32 && u + 16 != r + 32) && fwd + 16 != p && u + 16 != p
  {
    PlaceFacts(s1.m, s1.H, s1.base, s1.top, r, UNSORTED);
    CoreLow(s1.m, s1.H, s1.base, s1.top);
    assert RingAt(s1.m, s1.H, UNSORTED, Hdr(UNSORTED));
    BoundaryOffset(s1.m, s1.H, s1.base, s1.top, p, s1.m.Fd(Hdr(UNSORTED)), UNSORTED);
  }

  lemma SplitStores'(m: Mem, p: int, size: int, nb: int)
    requires nb >= MINSIZE && size - nb >= MINSIZE && p >= HEAP_MIN
    requires var r, n, u, fwd := p + nb, size - nb, Hdr(UNSORTED), m.Fd(Hdr(UNSORTED));
             && fwd != r && fwd + 16 != r && fwd + 16 != r + n && (fwd != u ==> fwd >= HEAP_MIN)
             && (!InSmallRange(n) ==> fwd + 16 != r + 32) && fwd + 16 != p
    ensures SplitWritten(m, SplitWords(m, p, size, nb), p, size, nb)
  {}

  lemma LowAt(s: State, p: int)
    requires Sound(s) && p in s.H
    ensures p >= HEAP_MIN && (s.m.Fd(Hdr(UNSORTED)) == Hdr(UNSORTED) || s.m.Fd(Hdr(UNSORTED)) >= HEAP_MIN)
  {
    Occupied(s, p);
    CoreLow(s.m, s.H, s.base, s.top);
    assert RingAt(s.m, s.H, UNSORTED, Hdr(UNSORTED));
  }

  /** The remainder is the first unsorted chunk, and the last remainder noted is the one noted before. */
  lemma SplitFirst(m: Mem, m': Mem, p: int, size: int, nb: int)
    requires SplitWritten(m, m', p, size, nb) && p >= HEAP_MIN && nb >= MINSIZE && (m.Fd(Hdr(UNSORTED)) == Hdr(UNSORTED) || m.Fd(Hdr(UNSORTED)) >= HEAP_MIN)
    ensures m'.Fd(Hdr(UNSORTED)) == p + nb && m'.Head(Hdr(UNSORTED)) == m.Head(Hdr(UNSORTED))
  {}

  lemma SplitDone(s: State, p: int, nb: int)
    requires Splittable(s, p, nb)
    ensures p in s.H && s.m.Bk(s.m.Fd(Hdr(UNSORTED))) == Hdr(UNSORTED)
    ensures var m', H' := SplitWords(s.m, p, s.H[p].n, nb), SplitHeap(s, p, nb);
            && Sound(s.(m := m', H := H')) && NoRaw(H') && SameListed(s.H, H')
            && LiveOf(H') == LiveOf(s.H)[p := nb] && p !in LiveOf(s.H) && Kept(s.m, m', LiveOf(s.H))
            && p + nb in H' && InBin(H', p + nb, UNSORTED) && H'[p + nb].n == s.H[p].n - nb && m'.PrevInuse(p)
            && m'.Fd(Hdr(UNSORTED)) == p + nb && m'.Head(Hdr(UNSORTED)) == s.m.Head(Hdr(UNSORTED))
  {
    hide Sound, SplitWritten, SplitHeap, Mem.PrevInuse, SplitWords;
    SplitInuse(s.m, p, s.H[p].n, nb);
    UnsortedGuard(s);
    SplitStores(s, p, nb);
    LowAt(s, p);
    SplitFirst(s.m, SplitWords(s.m, p, s.H[p].n, nb), p, s.H[p].n, nb);
    SplitSound(s, p, nb, SplitWords(s.m, p, s.H[p].n, nb));
  }

  /** Cut nb bytes from the owned chunk and put the rest into the unsorted list. */
  method SplitRemainder(av: MallocState, victim: int, size: int, nb: int) returns (remainder: int)
    requires av.Ok() && Splittable(av.S(), victim, nb) && size == av.H[victim].n
    modifies av`m, av`H
    ensures av.Ok() && NoRaw(av.H) && SameListed(old(av.H), av.H) && remainder == victim + nb && InBin(av.H, remainder, UNSORTED)
    ensures av.H[remainder].n == size - nb && av.m.Fd(Hdr(UNSORTED)) == remainder && av.m.Head(Hdr(UNSORTED)) == old(av.m.Head(Hdr(UNSORTED)))
    ensures victim !in old(LiveOf(av.H)) && LiveOf(av.H) == old(LiveOf(av.H))[victim := nb]
    ensures Kept(old(av.m), av.m, old(LiveOf(av.H))) && av.m.PrevInuse(victim)
  {
    hide Sound, Kept, LiveOf, Put, SameListed, NoRaw, SplitHeap, Splittable;
    hide Mem.PrevInuse, Mem.Insert, Mem.SetHead, Mem.SetPrevSize, Mem.SetFdNext, Mem.SetBkNext, Mem.Fd, Mem.Head;
    ghost var s := av.S();
    SplitDone(s, victim, nb);
    var remainderSize := size - nb;
    remainder := victim + nb;
    var bck := Hdr(UNSORTED);
    var fwd := av.m.Fd(bck);
    if av.m.Bk(fwd) != bck {
      assert false; // malloc(): corrupted unsorted chunks
    }
    av.m := av.m.Insert(remainder, bck, fwd);
    if !InSmallRange(remainderSize) {
      av.m := av.m.SetFdNext(remainder, NULL).SetBkNext(remainder, NULL);
    }
    av.m := av.m.SetHead(victim, nb + 1).SetHead(remainder, remainderSize + 1).SetPrevSize(remainder + remainderSize, remainderSize);
    av.H := SplitHeap(s, victim, nb);
  }

  lemma UnsortedGuard(s: State)
    requires Sound(s)
    ensures s.m.Bk(s.m.Fd(Hdr(UNSORTED))) == Hdr(UNSORTED)
  {
    assert RingAt(s.m, s.H, UNSORTED, Hdr(UNSORTED));
  }

  /** last_remainder lives in the head word of the unsorted bin's header; storing it disturbs nothing. */
  lemma RemainderSound(s: State, v: int)
    requires Sound(s) && s.top != Hdr(UNSORTED)
    ensures Sound(s.(m := s.m.SetHead(Hdr(UNSORTED), v))) && Kept(s.m, s.m.SetHead(Hdr(UNSORTED), v), LiveOf(s.H))
  {
    hide Marks, Slots;
    var m' := s.m.SetHead(Hdr(UNSORTED), v);
    CoreLow(s.m, s.H, s.base, s.top);
    TagsFrame(s.m, m', s.H, s.base, s.top);
    assert RingWordsSame(s.m, m', s.H);
    SameHeapFrames(s.m, m', s.H, s.H);
    assert NotLive(s.H, NULL);
    TouchesKept(s.m, m', s.H, s.base, s.top, NULL, NULL, NULL, NULL);
    FreshKeeps(s, m');
  }
}
