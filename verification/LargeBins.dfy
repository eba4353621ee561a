/** Sorted insertion into the large bins, as `_int_malloc` does it for chunks leaving the unsorted list. */
module LargeBins {
  import opened Sizes
  import opened Memory
  import opened Heap
  import opened RingProofs
  import opened NextSizeProofs
  import opened LayoutProofs
  import opened Steps
  import opened UnlinkProofs
  import opened LinkProofs
  import opened Arena
  import opened Binmap
  import opened Free
  import opened FreeChunk
  import opened ListEntries
  import opened Shelves

  /** The owned chunk `p` has its tags written, clear P bit behind it, and null nextsize links if large. */
  ghost predicate Intact(s: State, p: int) {
    && Sound(s) && p in s.H && s.H[p].st.Raw? && s.H[p].n >= MINSIZE
    && s.m.Head(p) == s.H[p].n + 1
    && (var q := p + s.H[p].n;
        q in s.H && !s.H[q].st.Raw? && s.m.PrevSize(q) == s.H[p].n && s.m.Head(q) == s.H[q].n)
    && (!InSmallRange(s.H[p].n) ==> s.m.FdNext(p) == NULL && s.m.BkNext(p) == NULL)
  }

  /** The nextsize words after `p` was written in between k and f. */
  ghost predicate RingWritten(m: Mem, m1: Mem, p: int, k: int, f: int) {
    && m1.FdNext(p) == f && m1.BkNext(p) == k && m1.FdNext(k) == p && m1.BkNext(f) == p
    && (forall a {:trigger m1.e(a)} :: a != p + 32 && a != k + 32 ==> m1.e(a) == m.e(a))
    && (forall a {:trigger m1.o(a)} :: a != p + 32 && a != f + 32 ==> m1.o(a) == m.o(a))
  }

  /** The four link assignments, in the order of the binning code. */
  function LinkWords(m: Mem, p: int, bck: int, fwd: int): Mem {
    m.SetBk(p, bck).SetFd(p, fwd).SetBk(fwd, p).SetFd(bck, p)
  }

  ghost function SpotRank(s: State, b: int, bck: int, fwd: int): (r: real)
    requires Sound(s) && 1 <= b <= 126 && Node(s.H, bck, b) && s.m.Fd(bck) == fwd
    ensures Slot(s.m, s.H, b, bck, fwd, r)
  {
    assert RingAt(s.m, s.H, b, bck);
    RankBetween(s.H, b, bck, fwd)
  }

  ghost function SpotHeap(s: State, p: int, b: int, bck: int, fwd: int): Heap
    requires Sound(s) && p in s.H && 1 <= b <= 126 && Node(s.H, bck, b) && s.m.Fd(bck) == fwd
  {
    s.H[p := Chunk(s.H[p].n, Binned(b, SpotRank(s, b, bck, fwd)))]
  }

  /** A place in large bin b where chunk `p` keeps the order by size. */
  ghost predicate Spot(s: State, p: int, b: int, bck: int, fwd: int) {
    && Intact(s, p) && !InSmallRange(s.H[p].n) && b == BinIndex(s.H[p].n) && 64 <= b <= 126
    && Node(s.H, bck, b) && s.m.Fd(bck) == fwd
    && (InBin(s.H, bck, b) ==> s.H[bck].n >= s.H[p].n)
    && (InBin(s.H, fwd, b) ==> s.H[p].n >= s.H[fwd].n)
  }

  /** A chunk of the same size that comes before the place is the first of that size, and there is one if there
      is one behind it. */
  ghost predicate Seated(H: Heap, p: int, b: int, bck: int, fwd: int)
    requires p in H
  {
    && (InBin(H, bck, b) && H[bck].n == H[p].n ==> FirstOfSize(H, b, bck))
    && (InBin(H, fwd, b) && H[fwd].n == H[p].n ==> InBin(H, bck, b) && H[bck].n == H[p].n)
  }

  lemma SpotShelved(s: State, s': State, p: int, b: int, bck: int, fwd: int)
    requires Spot(s, p, b, bck, fwd) && Seated(s.H, p, b, bck, fwd) && Sound(s') && s'.H == SpotHeap(s, p, b, bck, fwd)
    ensures BinEntries(s'.H, b) == Shelved(s.H, BinEntries(s.H, b), p, s.H[p].n)
  {
    hide Place, Sound, BinEntries;
    SoundBins(s');
    var k := BinInsert(s, s'.H, p, b, bck, SpotRank(s, b, bck, fwd));
    SoundBins(s);
    SoundSorted(s);
    BinSpell(s.H, b);
    var L, n := BinEntries(s.H, b), s.H[p].n;
    forall i | 0 <= i && i + 1 < k ensures s.H[L[i]].n > n {
      RankOrder(s.H, L, i, k - 1);
      assert OrdAt(s.H, L[i], bck);
    }
    PlaceIs(s.H, L, n, k);
  }

  lemma SoundSorted(s: State)
    requires Sound(s)
    ensures Ordered(s.H)
  {}

  lemma SpotSound(s: State, m1: Mem, p: int, b: int, bck: int, fwd: int, k: int, f: int)
    requires Spot(s, p, b, bck, fwd) && Marked(s.binmap, b)
    requires k in s.H && f in s.H && (k == p || InBin(s.H, k, b)) && (f == p || InBin(s.H, f, b))
    requires SameOff(s.m, m1, {p + 32, k + 32, f + 32})
    requires NextSizes(LinkWords(m1, p, bck, fwd), SpotHeap(s, p, b, bck, fwd))
    ensures var m', H' := LinkWords(m1, p, bck, fwd), SpotHeap(s, p, b, bck, fwd);
            Sound(s.(m := m', H := H')) && LiveOf(H') == LiveOf(s.H) && Kept(s.m, m', LiveOf(s.H)) && m'.Head(Hdr(UNSORTED)) == s.m.Head(Hdr(UNSORTED))
  {
    var m', H' := LinkWords(m1, p, bck, fwd), SpotHeap(s, p, b, bck, fwd);
    SpotRemainder(s, m1, p, b, bck, fwd, k, f);
    SpotCore(s, m1, p, b, bck, fwd, k, f);
    SpotKept(s, m1, p, b, bck, fwd, k, f);
    RestFrame(s.H, H', s.binmap, s.slots);
  }

  /** A placement does not touch where the last remainder is noted. */
  lemma SpotRemainder(s: State, m1: Mem, p: int, b: int, bck: int, fwd: int, k: int, f: int)
    requires Spot(s, p, b, bck, fwd)
    requires k in s.H && f in s.H && (k == p || InBin(s.H, k, b)) && (f == p || InBin(s.H, f, b))
    requires SameOff(s.m, m1, {p + 32, k + 32, f + 32})
    ensures LinkWords(m1, p, bck, fwd).Head(Hdr(UNSORTED)) == s.m.Head(Hdr(UNSORTED))
  {
    SpotNodes(s, p, b, bck, fwd, k, f);
    CoreLow'(s);
  }

  predicate Clear(a: int, bck: int, fwd: int, p: int, k: int, f: int) {
    a != bck + 16 && a != fwd + 16 && a != p + 16 && a != p + 32 && a != k + 32 && a != f + 32
  }

  /** No word of a placement sits at a chunk boundary. */
  lemma SpotApart(s: State, p: int, b: int, bck: int, fwd: int, k: int, f: int, a: int)
    requires Sound(s) && p in s.H && s.H[p].n >= 1024 && 64 <= b <= 126 && Node(s.H, bck, b) && Node(s.H, fwd, b)
    requires k in s.H && f in s.H && s.H[k].n >= 1024 && s.H[f].n >= 1024
    requires a in s.H || (a == s.top && s.top >= s.base)
    ensures Clear(a, bck, fwd, p, k, f)
  {
    hide Links, Marks, Slots, Fresh, Tags, TopOk;
    BoundaryOffset(s.m, s.H, s.base, s.top, a, bck, b);
    BoundaryOffset(s.m, s.H, s.base, s.top, a, fwd, b);
    Within(s.H, s.base, s.top, p, a);
    Within(s.H, s.base, s.top, k, a);
    Within(s.H, s.base, s.top, f, a);
  }

  lemma SpotNodes(s: State, p: int, b: int, bck: int, fwd: int, k: int, f: int)
    requires Spot(s, p, b, bck, fwd)
    requires k in s.H && f in s.H && (k == p || InBin(s.H, k, b)) && (f == p || InBin(s.H, f, b))
    ensures Node(s.H, fwd, b) && s.m.Bk(fwd) == bck
    ensures s.H[p].n >= 1024 && s.H[k].n >= 1024 && s.H[f].n >= 1024
    ensures s.top >= s.base && s.top != Hdr(UNSORTED)
    ensures bck != p && fwd != p
  {
    hide Body, NextSizes, Lists, Marks, Slots, Fresh;
    assert RingAt(s.m, s.H, b, bck);
    if k != p { BinLarge(s, k, b); }
    if f != p { BinLarge(s, f, b); }
    CoreLow'(s);
  }

  lemma CoreLow'(s: State)
    requires Sound(s)
    ensures Low(s.H)
  {
    CoreLow(s.m, s.H, s.base, s.top);
  }

  /** The links and tags after a placement. */
  lemma SpotWords(s: State, m1: Mem, p: int, b: int, bck: int, fwd: int, k: int, f: int)
    requires Spot(s, p, b, bck, fwd)
    requires k in s.H && f in s.H && (k == p || InBin(s.H, k, b)) && (f == p || InBin(s.H, f, b))
    requires SameOff(s.m, m1, {p + 32, k + 32, f + 32})
    ensures var m', q := LinkWords(m1, p, bck, fwd), p + s.H[p].n;
            && m'.Fd(p) == fwd && m'.Bk(p) == bck && m'.Fd(bck) == p && m'.Bk(fwd) == p
            && m'.Head(p) == s.m.Head(p) && m'.PrevSize(q) == s.m.PrevSize(q) && m'.Head(q) == s.m.Head(q)
            && m'.Head(s.top) == s.m.Head(s.top)
  {
    hide Sound, Put;
    var q := p + s.H[p].n;
    SpotNodes(s, p, b, bck, fwd, k, f);
    SpotApart(s, p, b, bck, fwd, k, f, p);
    SpotApart(s, p, b, bck, fwd, k, f, q);
    SpotApart(s, p, b, bck, fwd, k, f, s.top);
    LinkedWords(s.m, m1, p, bck, fwd, k, f, q, s.top);
  }

  lemma LinkedWords(m: Mem, m1: Mem, p: int, bck: int, fwd: int, k: int, f: int, q: int, top: int)
    requires SameOff(m, m1, {p + 32, k + 32, f + 32}) && bck != p && fwd != p
    requires Clear(p, bck, fwd, p, k, f) && Clear(q, bck, fwd, p, k, f) && Clear(top, bck, fwd, p, k, f)
    ensures var m' := LinkWords(m1, p, bck, fwd);
            && m'.Fd(p) == fwd && m'.Bk(p) == bck && m'.Fd(bck) == p && m'.Bk(fwd) == p
            && m'.Head(p) == m.Head(p) && m'.PrevSize(q) == m.PrevSize(q) && m'.Head(q) == m.Head(q)
            && m'.Head(top) == m.Head(top)
  {}

  /** Chunks of a large bin are large. */
  lemma BinLarge(s: State, k: int, b: int)
    requires Sound(s) && InBin(s.H, k, b) && b >= 64
    ensures s.H[k].n >= 1024
  {
    assert BinOk(s.H, k);
    BinIndexRange(s.H[k].n);
  }

  lemma SpotCore(s: State, m1: Mem, p: int, b: int, bck: int, fwd: int, k: int, f: int)
    requires Spot(s, p, b, bck, fwd)
    requires k in s.H && f in s.H && (k == p || InBin(s.H, k, b)) && (f == p || InBin(s.H, f, b))
    requires SameOff(s.m, m1, {p + 32, k + 32, f + 32})
    requires NextSizes(LinkWords(m1, p, bck, fwd), SpotHeap(s, p, b, bck, fwd))
    ensures Core(LinkWords(m1, p, bck, fwd), SpotHeap(s, p, b, bck, fwd), s.base, s.top)
    ensures LinkWords(m1, p, bck, fwd).Head(s.top) == s.m.Head(s.top)
  {
    hide Sound, NextSizes, Relinked, LinkWords, SameOff, BinIndex, Slot;
    var m', H', r := LinkWords(m1, p, bck, fwd), SpotHeap(s, p, b, bck, fwd), SpotRank(s, b, bck, fwd);
    SpotNodes(s, p, b, bck, fwd, k, f);
    SpotWords(s, m1, p, b, bck, fwd, k, f);
    var A := {p + 16, p + 32};
    var N := (if k == p then {} else {k + 32}) + (if f == p then {} else {f + 32});
    SpotRelinked(s, m1, p, b, bck, fwd, k, f, A, N);
    assert Tagged(s.m, m', s.H, p);
    SpotStep(s, m', H', p, b, r, bck, fwd, A, N);
  }

  lemma SpotRelinked(s: State, m1: Mem, p: int, b: int, bck: int, fwd: int, k: int, f: int, A: set<int>, N: set<int>)
    requires Sound(s) && p in s.H && s.H[p].st.Raw? && s.H[p].n >= 1024
    requires k in s.H && f in s.H && (k == p || InBin(s.H, k, b)) && (f == p || InBin(s.H, f, b))
    requires s.H[k].n >= 1024 && s.H[f].n >= 1024
    requires SameOff(s.m, m1, {p + 32, k + 32, f + 32})
    requires A == {p + 16, p + 32} && N == (if k == p then {} else {k + 32}) + (if f == p then {} else {f + 32})
    ensures Relinked(s.m, LinkWords(m1, p, bck, fwd), s.H, bck, fwd, A, N)
    ensures forall a :: a in A ==> a !in s.H
  {
    hide Links, Marks, Slots, Fresh, Tags, TopOk, Put;
    SpotLoose(s, p, p + 16);
    SpotLoose(s, p, p + 32);
    SpotDiff(s.m, m1, p, bck, fwd, k, f, A, N);
  }

  lemma SpotLoose(s: State, p: int, a: int)
    requires Sound(s) && p in s.H && s.H[p].st.Raw? && p < a < p + s.H[p].n
    ensures Outside(s.H, a) && a !in s.H
  {
    hide Links, Marks, Slots, Fresh, Tags, TopOk;
    RawOutside(s.H, s.base, s.top, p, a);
    assert a in s.H ==> Apart(s.H, a, p) && Placed(s.H, s.base, s.top, a);
  }

  lemma SpotDiff(m: Mem, m1: Mem, p: int, bck: int, fwd: int, k: int, f: int, A: set<int>, N: set<int>)
    requires SameOff(m, m1, {p + 32, k + 32, f + 32})
    requires A == {p + 16, p + 32} && N == (if k == p then {} else {k + 32}) + (if f == p then {} else {f + 32})
    ensures var m' := LinkWords(m1, p, bck, fwd);
            && (forall a {:trigger m'.e(a)} :: a !in A && a !in N && a != bck + 16 ==> m'.e(a) == m.e(a))
            && (forall a {:trigger m'.o(a)} :: a !in A && a !in N && a != fwd + 16 ==> m'.o(a) == m.o(a))
  {}

  lemma SpotStep(s: State, m': Mem, H': Heap, p: int, b: int, r: real, bck: int, fwd: int, A: set<int>, N: set<int>)
    requires Spot(s, p, b, bck, fwd) && Relinked(s.m, m', s.H, bck, fwd, A, N) && Slot(s.m, s.H, b, bck, fwd, r)
    requires H' == s.H[p := Chunk(s.H[p].n, Binned(b, r))]
    requires m'.Fd(p) == fwd && m'.Bk(p) == bck && m'.Fd(bck) == p && m'.Bk(fwd) == p
    requires Tagged(s.m, m', s.H, p) && (forall a :: a in A ==> a !in s.H) && NextSizes(m', H')
    ensures Core(m', H', s.base, s.top)
  {
    LargeBinStep(s.m, m', s.H, H', s.base, s.top, p, b, r, bck, fwd, A, N);
  }

  lemma SpotKept(s: State, m1: Mem, p: int, b: int, bck: int, fwd: int, k: int, f: int)
    requires Spot(s, p, b, bck, fwd)
    requires k in s.H && f in s.H && (k == p || InBin(s.H, k, b)) && (f == p || InBin(s.H, f, b))
    requires SameOff(s.m, m1, {p + 32, k + 32, f + 32})
    ensures var m' := LinkWords(m1, p, bck, fwd);
            && Kept(s.m, m', LiveOf(s.H)) && Fresh(m', s.mark)
  {
    hide Marks, Slots;
    var m' := LinkWords(m1, p, bck, fwd);
    SpotNodes(s, p, b, bck, fwd, k, f);
    CoreLow(s.m, s.H, s.base, s.top);
    if bck in s.H { assert InBin(s.H, bck, b); BinLarge(s, bck, b); }
    if fwd in s.H { assert InBin(s.H, fwd, b); BinLarge(s, fwd, b); }
    SpotTouches(s, m1, p, bck, fwd, k, f);
    TouchesKept(s.m, m1, s.H, s.base, s.top, p, k, f, p);
    TouchesKept(m1, m', s.H, s.base, s.top, p, bck, fwd, p);
    KeptTrans(s.m, m1, m', LiveOf(s.H));
    FreshKeeps(s, m');
  }

  lemma SpotTouches(s: State, m1: Mem, p: int, bck: int, fwd: int, k: int, f: int)
    requires p in s.H && k in s.H && f in s.H && s.H[p].n >= 1024 && s.H[k].n >= 1024 && s.H[f].n >= 1024
    requires SameOff(s.m, m1, {p + 32, k + 32, f + 32})
    requires (bck in s.H && s.H[bck].n >= 1024) || bck + 16 < HEAP_MIN
    requires (fwd in s.H && s.H[fwd].n >= 1024) || fwd + 16 < HEAP_MIN
    ensures Touches(s.m, m1, s.H, p, k, f, p) && Touches(m1, LinkWords(m1, p, bck, fwd), s.H, p, bck, fwd, p)
  {}

  // ---------------------------------------------------------------- the nextsize ring in each branch

  /** Linking `p` in leaves the nextsize words written before. */
  lemma SpotNext(s: State, m1: Mem, p: int, b: int, bck: int, fwd: int, k: int, f: int)
    requires Spot(s, p, b, bck, fwd) && RingWritten(s.m, m1, p, k, f)
    requires k in s.H && f in s.H && (k == p || InBin(s.H, k, b)) && (f == p || InBin(s.H, f, b))
    ensures var m' := LinkWords(m1, p, bck, fwd);
            && m'.FdNext(p) == f && m'.BkNext(p) == k && m'.FdNext(k) == p && m'.BkNext(f) == p
            && NextWordsSameBut(s.m, m', s.H, f, k, p)
  {
    hide Body, Rings, NextSizes, Lists, Marks, Slots, Fresh;
    SpotNodes(s, p, b, bck, fwd, k, f);
    forall c, x | InBin(s.H, x, c) && !InSmallRange(s.H[x].n)
      ensures x != p && x + 32 != bck + 16 && x + 32 != fwd + 16 && x + 32 != p + 16
    {
      SpotOffset(s, p, b, bck, fwd, x);
    }
    SpotOffset(s, p, b, bck, fwd, p);
  }

  lemma SpotOffset(s: State, p: int, b: int, bck: int, fwd: int, x: int)
    requires Sound(s) && p in s.H && s.H[p].n >= MINSIZE && x in s.H && s.H[x].n >= 1024 && b <= 127
    requires Node(s.H, bck, b) && Node(s.H, fwd, b)
    ensures x + 32 != bck + 16 && x + 32 != fwd + 16 && x + 16 != p
  {
    NodeOffset(s.m, s.H, s.base, s.top, bck, x, b);
    NodeOffset(s.m, s.H, s.base, s.top, fwd, x, b);
    assert Placed(s.H, s.base, s.top, x);
    if p != x {
      assert Apart(s.H, p, x);
    }
  }

  /** First chunk of an empty bin. */
  lemma AloneRing(s: State, m1: Mem, p: int, b: int)
    requires Spot(s, p, b, Hdr(b), Hdr(b)) && RingWritten(s.m, m1, p, p, p)
    ensures NextSizes(LinkWords(m1, p, Hdr(b), Hdr(b)), SpotHeap(s, p, b, Hdr(b), Hdr(b)))
  {
    var m', H', r := LinkWords(m1, p, Hdr(b), Hdr(b)), SpotHeap(s, p, b, Hdr(b), Hdr(b)), SpotRank(s, b, Hdr(b), Hdr(b));
    CoreLow'(s);
    SpotNext(s, m1, p, b, Hdr(b), Hdr(b), p, p);
    assert RingAt(s.m, s.H, b, Hdr(b));
    assert With(s.H, H', p, b, r);
    assert NextWordsSame(s.m, m', s.H);
    AloneRing'(s, m', H', p, b, r);
  }

  lemma AloneRing'(s: State, m': Mem, H': Heap, p: int, b: int, r: real)
    requires Sound(s) && Low(s.H) && With(s.H, H', p, b, r) && NextWordsSame(s.m, m', s.H) && 64 <= b
    requires m'.FdNext(p) == p && m'.BkNext(p) == p
    requires forall q {:trigger InBin(s.H, q, b)} :: !InBin(s.H, q, b)
    ensures NextSizes(m', H')
  {
    hide Body, Rings, Lists, Marks, Slots, Fresh, TopOk;
    forall c, x | InBin(H', x, c) && !InSmallRange(H'[x].n) ensures NextSizeAt(m', H', c, x) {
      NextSizeAlone(s.m, m', s.H, H', p, b, r, c, x);
    }
  }

  /** Behind the first chunk `q` of the same size. */
  lemma SecondRing(s: State, p: int, b: int, q: int, fwd: int)
    requires Spot(s, p, b, q, fwd) && Lead(s.m, s.H, q, b) && s.H[q].n == s.H[p].n
    ensures NextSizes(LinkWords(s.m, p, q, fwd), SpotHeap(s, p, b, q, fwd))
  {
    var m', H', r := LinkWords(s.m, p, q, fwd), SpotHeap(s, p, b, q, fwd), SpotRank(s, b, q, fwd);
    SpotNodes(s, p, b, q, fwd, p, p);
    forall c, x | InBin(s.H, x, c) && !InSmallRange(s.H[x].n)
      ensures x + 32 != q + 16 && x + 32 != fwd + 16 && x + 32 != p + 16
    {
      SpotOffset(s, p, b, q, fwd, x);
    }
    SpotOffset(s, p, b, q, fwd, p);
    assert NextWordsSame(s.m, m', s.H);
    assert With(s.H, H', p, b, r);
    SecondRing'(s, m', H', p, b, r, q);
  }

  lemma SecondRing'(s: State, m': Mem, H': Heap, p: int, b: int, r: real, q: int)
    requires Sound(s) && With(s.H, H', p, b, r) && NextWordsSame(s.m, m', s.H) && 64 <= b
    requires !InSmallRange(s.H[p].n) && m'.FdNext(p) == NULL && m'.BkNext(p) == NULL
    requires Lead(s.m, s.H, q, b) && s.H[q].n == s.H[p].n && s.H[q].st.r < r
    ensures NextSizes(m', H')
  {
    hide Body, Rings, Lists, Marks, Slots, Fresh, TopOk;
    forall c, x | InBin(H', x, c) && !InSmallRange(H'[x].n) ensures NextSizeAt(m', H', c, x) {
      NextSizeAddPlain(s.m, m', s.H, H', p, b, r, q, c, x);
    }
  }

  /** Between the ring neighbours k and f, as the first chunk of a new size. */
  ghost predicate NewSize(s: State, p: int, b: int, k: int, f: int) {
    && p in s.H && Lead(s.m, s.H, k, b) && s.m.FdNext(k) == f && Lead(s.m, s.H, f, b) && s.m.BkNext(f) == k
    && (forall q {:trigger InBin(s.H, q, b)} :: InBin(s.H, q, b) ==> s.H[q].n != s.H[p].n)
    && NextLower(s.H, b, k, f)
    && (if s.H[f].n < s.H[k].n then s.H[f].n < s.H[p].n < s.H[k].n else s.H[p].n < s.H[k].n || s.H[f].n < s.H[p].n)
  }

  lemma EnterRing(s: State, m1: Mem, p: int, b: int, bck: int, fwd: int, k: int, f: int)
    requires Spot(s, p, b, bck, fwd) && RingWritten(s.m, m1, p, k, f) && NewSize(s, p, b, k, f)
    ensures NextSizes(LinkWords(m1, p, bck, fwd), SpotHeap(s, p, b, bck, fwd))
  {
    var m', H', r := LinkWords(m1, p, bck, fwd), SpotHeap(s, p, b, bck, fwd), SpotRank(s, b, bck, fwd);
    SpotNext(s, m1, p, b, bck, fwd, k, f);
    assert Enters(s.m, m', s.H, H', p, b, r, k, f);
    EnterRing'(s, m', H', p, b, r, k, f);
  }

  lemma EnterRing'(s: State, m': Mem, H': Heap, p: int, b: int, r: real, k: int, f: int)
    requires Sound(s) && Enters(s.m, m', s.H, H', p, b, r, k, f)
    ensures NextSizes(m', H')
  {
    CoreLow'(s);
    forall c, x | InBin(H', x, c) && !InSmallRange(H'[x].n) ensures NextSizeAt(m', H', c, x) {
      NextSizeEnter(s.m, m', s.H, H', p, b, r, k, f, c, x);
    }
  }

  // ---------------------------------------------------------------- finding the place

  /** The first and the last chunk of a non-empty large bin: largest and smallest. */
  lemma EndsFacts(s: State, b: int)
    requires Sound(s) && 64 <= b <= 126 && s.m.Fd(Hdr(b)) != Hdr(b)
    ensures var first, last := s.m.Fd(Hdr(b)), s.m.Bk(Hdr(b));
            && Lead(s.m, s.H, first, b) && InBin(s.H, last, b) && s.m.Fd(last) == Hdr(b) && s.m.Bk(first) == Hdr(b)
            && s.m.Head(last) == s.H[last].n + 1
            && forall q {:trigger InBin(s.H, q, b)} :: InBin(s.H, q, b) ==>
                 s.H[last].n <= s.H[q].n <= s.H[first].n && s.H[first].st.r <= s.H[q].st.r
  {
    hide Marks, Slots, Fresh;
    CoreLow'(s);
    var first, last := s.m.Fd(Hdr(b)), s.m.Bk(Hdr(b));
    assert RingAt(s.m, s.H, b, Hdr(b));
    assert !InBin(s.H, Hdr(b), b) && InBin(s.H, first, b);
    assert InBin(s.H, last, b);
    forall q | InBin(s.H, q, b)
      ensures s.H[last].n <= s.H[q].n <= s.H[first].n && s.H[first].st.r <= s.H[q].st.r
    {
      assert q != first ==> OrdAt(s.H, first, q);
      assert q != last ==> OrdAt(s.H, q, last);
    }
    BinLarge(s, first, b);
    assert NextSizeAt(s.m, s.H, b, first) && TagAt(s.m, s.H, s.top, last);
  }

  /** Where a walk along the nextsize ring stands: at the first chunk of a size, every larger size
      before it too large. */
  ghost predicate Walking(s: State, p: int, b: int, fwd: int) {
    && Intact(s, p) && !InSmallRange(s.H[p].n) && b == BinIndex(s.H[p].n) && 64 <= b <= 126
    && s.m.Fd(Hdr(b)) != Hdr(b)
    && Lead(s.m, s.H, fwd, b) && Lead(s.m, s.H, s.m.BkNext(fwd), b) && s.m.FdNext(s.m.BkNext(fwd)) == fwd
    && (fwd == s.m.Fd(Hdr(b)) || s.H[p].n < s.H[s.m.BkNext(fwd)].n)
  }

  lemma LeadFacts(s: State, b: int, p: int)
    requires Sound(s) && Lead(s.m, s.H, p, b) && 64 <= b
    ensures var f, k := s.m.FdNext(p), s.m.BkNext(p);
            && Lead(s.m, s.H, f, b) && s.m.BkNext(f) == p && Lead(s.m, s.H, k, b) && s.m.FdNext(k) == p
            && FirstOfSize(s.H, b, p) && NextLower(s.H, b, p, f) && NextLower(s.H, b, k, p)
            && s.m.Head(p) == s.H[p].n + 1 && s.H[p].n >= 1024
  {
    hide Marks, Slots, Fresh;
    BinLarge(s, p, b);
    assert NextSizeAt(s.m, s.H, b, p);
    BinLarge(s, s.m.BkNext(p), b);
    assert NextSizeAt(s.m, s.H, b, s.m.BkNext(p));
    assert TagAt(s.m, s.H, s.top, p);
  }

  lemma WalkStep(s: State, p: int, b: int, fwd: int)
    requires s.m.Bk(Hdr(b)) in s.H
    requires Walking(s, p, b, fwd) && s.H[p].n < s.H[fwd].n && s.H[s.m.Bk(Hdr(b))].n <= s.H[p].n
    ensures Walking(s, p, b, s.m.FdNext(fwd)) && s.H[s.m.FdNext(fwd)].n < s.H[fwd].n
  {
    EndsFacts(s, b);
    LeadFacts(s, b, fwd);
    LeadFacts(s, b, s.m.FdNext(fwd));
    assert InBin(s.H, s.m.Bk(Hdr(b)), b);
  }

  /** Smaller than everything in the bin: last place. */
  lemma SmallestSpot(s: State, p: int, b: int)
    requires Intact(s, p) && !InSmallRange(s.H[p].n) && b == BinIndex(s.H[p].n) && 64 <= b <= 126
    requires s.m.Fd(Hdr(b)) != Hdr(b) && s.m.Bk(Hdr(b)) in s.H && s.H[p].n < s.H[s.m.Bk(Hdr(b))].n
    ensures var f := s.m.Fd(Hdr(b)); var k := s.m.BkNext(f);
            && Spot(s, p, b, s.m.Bk(Hdr(b)), Hdr(b)) && Seated(s.H, p, b, s.m.Bk(Hdr(b)), Hdr(b)) && NewSize(s, p, b, k, f) && f in s.H && k in s.H
  {
    EndsFacts(s, b);
    var f := s.m.Fd(Hdr(b));
    LeadFacts(s, b, f);
    CoreLow'(s);
  }

  lemma SecondSpot(s: State, p: int, b: int, fwd: int)
    requires Walking(s, p, b, fwd) && s.H[p].n == s.H[fwd].n
    ensures var g := s.m.Fd(fwd); Spot(s, p, b, fwd, g) && Seated(s.H, p, b, fwd, g) && s.m.Bk(g) == fwd
  {
    hide Body, NextSizes, Lists, Marks, Slots, Fresh;
    var g := s.m.Fd(fwd);
    LeadFirst(s, b, fwd);
    CoreLow'(s);
    assert RingAt(s.m, s.H, b, fwd);
    if InBin(s.H, g, b) {
      assert OrdAt(s.H, fwd, g);
    }
  }

  lemma LeadFirst(s: State, b: int, p: int)
    requires Sound(s) && Lead(s.m, s.H, p, b) && 64 <= b
    ensures FirstOfSize(s.H, b, p)
  {
    LeadFacts(s, b, p);
  }

  lemma NewSpot(s: State, p: int, b: int, fwd: int)
    requires Walking(s, p, b, fwd) && s.H[p].n > s.H[fwd].n
    ensures var k, bck := s.m.BkNext(fwd), s.m.Bk(fwd);
            && Spot(s, p, b, bck, fwd) && Seated(s.H, p, b, bck, fwd) && NewSize(s, p, b, k, fwd) && s.m.Fd(bck) == fwd && k in s.H && fwd in s.H
  {
    EndsFacts(s, b);
    LeadFacts(s, b, fwd);
    CoreLow'(s);
    var bck := s.m.Bk(fwd);
    assert RingAt(s.m, s.H, b, fwd);
    if InBin(s.H, bck, b) {
      assert OrdAt(s.H, bck, fwd);
    }
  }

  lemma AloneSpot(s: State, p: int, b: int)
    requires Intact(s, p) && !InSmallRange(s.H[p].n) && b == BinIndex(s.H[p].n) && 64 <= b <= 126
    requires s.m.Fd(Hdr(b)) == Hdr(b)
    ensures Spot(s, p, b, Hdr(b), Hdr(b)) && Seated(s.H, p, b, Hdr(b), Hdr(b))
  {
    CoreLow'(s);
  }

  // ---------------------------------------------------------------- the insertion itself

  /** Put the owned large chunk `victim` into its sorted bin. None of the three largebin checks can fire. */
  method BinLargeChunk(av: MallocState, victim: int, size0: int)
    requires av.Ok() && Intact(av.S(), victim) && size0 == av.H[victim].n && !InSmallRange(size0)
    modifies av`m, av`H, av`binmap
    ensures av.Ok() && InBin(av.H, victim, BinIndex(size0)) && av.H == old(av.H)[victim := av.H[victim]] && av.H[victim].n == size0
    ensures LiveOf(av.H) == old(LiveOf(av.H)) && Kept(old(av.m), av.m, LiveOf(av.H))
    ensures av.m.Head(Hdr(UNSORTED)) == old(av.m.Head(Hdr(UNSORTED)))
    ensures var b := BinIndex(size0); BinEntries(av.H, b) == Shelved(old(av.H), BinEntries(old(av.H), b), victim, size0)
  {
    hide Sound, Kept, LiveOf, NewSize, RingWritten, NextSizes, Lead, Put, Shelved, BinEntries, Seated;
    BinIndexRange(size0);
    ghost var b := BinIndex(size0);
    var victimIndex := LargeBinIndex(size0);
    MarkSound(av.S(), b);
    av.binmap := Mark(av.binmap, victimIndex);
    ghost var s := av.S();
    var bck := Hdr(victimIndex);
    var fwd := av.m.Fd(bck);
    if fwd != bck {
      var size := size0 + 1;
      EndsFacts(s, b);
      LastIn(s, b);
      if size < av.m.Head(av.m.Bk(bck)) {
        SmallestSpot(s, victim, b);
        fwd := bck;
        bck := av.m.Bk(bck);
        BinSmallest(av, victim, b, bck, fwd);
        SpotShelved(s, av.S(), victim, b, bck, fwd);
      } else {
        WalkStart(s, victim, b);
        fwd := LargeWalk(av, victim, size, b, fwd);
        WalkEnd(s, victim, b, fwd);
        if size == av.m.Head(fwd) {
          SecondSpot(s, victim, b, fwd);
          SecondRing(s, victim, b, fwd, av.m.Fd(fwd));
          SecondDone(s, victim, b, fwd);
          fwd := av.m.Fd(fwd);
          bck := av.m.Bk(fwd);
          if av.m.Fd(bck) != fwd {
            assert false; // malloc(): largebin double linked list corrupted (bk)
          }
          av.m := av.m.SetBk(victim, bck).SetFd(victim, fwd).SetBk(fwd, victim).SetFd(bck, victim);
          av.H := SpotHeap(s, victim, b, bck, fwd);
          SpotShelved(s, av.S(), victim, b, bck, fwd);
        } else {
          NewSpot(s, victim, b, fwd);
          BinBetween(av, victim, b, fwd);
          SpotShelved(s, av.S(), victim, b, s.m.Bk(fwd), fwd);
        }
      }
    } else {
      AloneSpot(s, victim, b);
      AloneDone(s, victim, b);
      av.m := av.m.SetFdNext(victim, victim).SetBkNext(victim, victim);
      av.m := av.m.SetBk(victim, bck).SetFd(victim, fwd).SetBk(fwd, victim).SetFd(bck, victim);
      av.H := SpotHeap(s, victim, b, bck, fwd);
      SpotShelved(s, av.S(), victim, b, bck, fwd);
    }
  }

  lemma LastIn(s: State, b: int)
    requires Sound(s) && InBin(s.H, s.m.Bk(Hdr(b)), b)
    ensures s.m.Bk(Hdr(b)) in s.H
  {}

  lemma WalkStart(s: State, p: int, b: int)
    requires Intact(s, p) && !InSmallRange(s.H[p].n) && b == BinIndex(s.H[p].n) && 64 <= b <= 126
    requires s.m.Fd(Hdr(b)) != Hdr(b)
    ensures Walking(s, p, b, s.m.Fd(Hdr(b)))
  {
    EndsFacts(s, b);
    LeadFacts(s, b, s.m.Fd(Hdr(b)));
  }

  lemma WalkEnd(s: State, p: int, b: int, fwd: int)
    requires Walking(s, p, b, fwd)
    ensures fwd in s.H && s.m.Head(fwd) == s.H[fwd].n + 1
  {
    LeadFacts(s, b, fwd);
  }

  /** The walk `while (size < chunksize_nomask(fwd)) fwd = fwd->fd_nextsize`. */
  method LargeWalk(av: MallocState, victim: int, size: int, ghost b: int, fwd0: int) returns (fwd: int)
    requires Walking(av.S(), victim, b, fwd0) && size == av.H[victim].n + 1
    requires av.m.Bk(Hdr(b)) in av.H && av.H[av.m.Bk(Hdr(b))].n <= av.H[victim].n
    ensures Walking(av.S(), victim, b, fwd) && size >= av.m.Head(fwd)
  {
    hide Sound, Intact, Lead;
    ghost var s := av.S();
    fwd := fwd0;
    WalkEnd(s, victim, b, fwd);
    while size < av.m.Head(fwd)
      invariant Walking(s, victim, b, fwd) && fwd in av.H && av.m.Head(fwd) == av.H[fwd].n + 1
      decreases av.H[fwd].n
    {
      WalkStep(s, victim, b, fwd);
      WalkEnd(s, victim, b, av.m.FdNext(fwd));
      fwd := av.m.FdNext(fwd);
    }
  }

  lemma SecondDone(s: State, p: int, b: int, q: int)
    requires Marked'(s, b) && Spot(s, p, b, q, s.m.Fd(q)) && Lead(s.m, s.H, q, b) && s.H[q].n == s.H[p].n
    ensures var fwd := s.m.Fd(q); var m', H' := LinkWords(s.m, p, q, fwd), SpotHeap(s, p, b, q, fwd);
            Sound(s.(m := m', H := H')) && LiveOf(H') == LiveOf(s.H) && Kept(s.m, m', LiveOf(s.H)) && m'.Head(Hdr(UNSORTED)) == s.m.Head(Hdr(UNSORTED))
  {
    SecondRing(s, p, b, q, s.m.Fd(q));
    SpotSound(s, s.m, p, b, q, s.m.Fd(q), p, p);
  }

  ghost predicate Marked'(s: State, b: int) {
    0 <= b < 128 && Marked(s.binmap, b)
  }

  lemma AloneDone(s: State, p: int, b: int)
    requires Marked'(s, b) && Spot(s, p, b, Hdr(b), Hdr(b))
    ensures var m1 := s.m.SetFdNext(p, p).SetBkNext(p, p);
            var m', H' := LinkWords(m1, p, Hdr(b), Hdr(b)), SpotHeap(s, p, b, Hdr(b), Hdr(b));
            Sound(s.(m := m', H := H')) && LiveOf(H') == LiveOf(s.H) && Kept(s.m, m', LiveOf(s.H)) && m'.Head(Hdr(UNSORTED)) == s.m.Head(Hdr(UNSORTED))
  {
    var m1 := s.m.SetFdNext(p, p).SetBkNext(p, p);
    AloneRing(s, m1, p, b);
    SpotSound(s, m1, p, b, Hdr(b), Hdr(b), p, p);
  }

  lemma EnterDone(s: State, m1: Mem, p: int, b: int, bck: int, fwd: int, k: int, f: int)
    requires Marked'(s, b) && Spot(s, p, b, bck, fwd) && NewSize(s, p, b, k, f) && RingWritten(s.m, m1, p, k, f)
    ensures var m', H' := LinkWords(m1, p, bck, fwd), SpotHeap(s, p, b, bck, fwd);
            Sound(s.(m := m', H := H')) && LiveOf(H') == LiveOf(s.H) && Kept(s.m, m', LiveOf(s.H)) && m'.Head(Hdr(UNSORTED)) == s.m.Head(Hdr(UNSORTED))
  {
    hide Sound, LinkWords, NextSizes, Kept, LiveOf, Put;
    EnterRing(s, m1, p, b, bck, fwd, k, f);
    SpotSound(s, m1, p, b, bck, fwd, k, f);
  }

  /** The branch for a chunk smaller than everything in its bin. */
  method BinSmallest(av: MallocState, victim: int, ghost b: int, bck: int, fwd: int)
    requires av.Ok() && Marked'(av.S(), b) && Spot(av.S(), victim, b, bck, fwd) && fwd == Hdr(b)
    requires var f := av.m.Fd(fwd); NewSize(av.S(), victim, b, av.m.BkNext(f), f)
    modifies av`m, av`H
    ensures av.Ok() && av.H == SpotHeap(old(av.S()), victim, b, bck, fwd)
    ensures LiveOf(av.H) == old(LiveOf(av.H)) && Kept(old(av.m), av.m, LiveOf(av.H))
    ensures av.m.Head(Hdr(UNSORTED)) == old(av.m.Head(Hdr(UNSORTED)))
  {
    hide Sound, Kept, LiveOf, Spot;
    ghost var s := av.S();
    var f := av.m.Fd(fwd);
    var k := av.m.BkNext(f);
    SmallestWords(s, victim, b, bck, fwd, k, f);
    if av.m.FdNext(k) != f {
      assert false; // malloc(): largebin double linked list corrupted (nextsize)
    }
    av.m := av.m.SetFdNext(victim, f).SetBkNext(victim, k).SetFdNext(k, victim).SetBkNext(f, victim);
    EnterDone(s, av.m, victim, b, bck, fwd, k, f);
    av.m := av.m.SetBk(victim, bck).SetFd(victim, fwd).SetBk(fwd, victim).SetFd(bck, victim);
    av.H := SpotHeap(s, victim, b, bck, fwd);
  }

  lemma SmallestWords(s: State, p: int, b: int, bck: int, fwd: int, k: int, f: int)
    requires Spot(s, p, b, bck, fwd) && fwd == Hdr(b) && f == s.m.Fd(fwd) && k == s.m.BkNext(f) && NewSize(s, p, b, k, f)
    ensures s.m.FdNext(k) == f && fwd + 16 != p + 32 && fwd + 16 != k + 32 && p != k && p != f
    ensures var m1 := s.m.SetFdNext(p, f).SetBkNext(p, k).SetFdNext(k, p).SetBkNext(f, p); RingWritten(s.m, m1, p, k, f)
  {
    CoreLow'(s);
  }

  /** The branch for the first chunk of a new size, in front of a smaller one. */
  method BinBetween(av: MallocState, victim: int, ghost b: int, fwd: int)
    requires av.Ok() && Marked'(av.S(), b) && Spot(av.S(), victim, b, av.m.Bk(fwd), fwd) && av.m.Fd(av.m.Bk(fwd)) == fwd
    requires NewSize(av.S(), victim, b, av.m.BkNext(fwd), fwd)
    modifies av`m, av`H
    ensures av.Ok() && av.H == SpotHeap(old(av.S()), victim, b, old(av.m.Bk(fwd)), fwd)
    ensures LiveOf(av.H) == old(LiveOf(av.H)) && Kept(old(av.m), av.m, LiveOf(av.H))
    ensures av.m.Head(Hdr(UNSORTED)) == old(av.m.Head(Hdr(UNSORTED)))
  {
    hide Sound, Kept, LiveOf, Spot;
    ghost var s := av.S();
    ghost var k := av.m.BkNext(fwd);
    BetweenWords(s, victim, b, fwd, k);
    av.m := av.m.SetFdNext(victim, fwd);
    av.m := av.m.SetBkNext(victim, av.m.BkNext(fwd));
    if av.m.FdNext(av.m.BkNext(fwd)) != fwd {
      assert false; // malloc(): largebin double linked list corrupted (nextsize)
    }
    av.m := av.m.SetBkNext(fwd, victim);
    av.m := av.m.SetFdNext(av.m.BkNext(victim), victim);
    var bck := av.m.Bk(fwd);
    if av.m.Fd(bck) != fwd {
      assert false; // malloc(): largebin double linked list corrupted (bk)
    }
    EnterDone(s, av.m, victim, b, bck, fwd, k, fwd);
    av.m := av.m.SetBk(victim, bck).SetFd(victim, fwd).SetBk(fwd, victim).SetFd(bck, victim);
    av.H := SpotHeap(s, victim, b, bck, fwd);
  }

  lemma BetweenWords(s: State, p: int, b: int, fwd: int, k: int)
    requires Spot(s, p, b, s.m.Bk(fwd), fwd) && s.m.Fd(s.m.Bk(fwd)) == fwd
    requires k == s.m.BkNext(fwd) && NewSize(s, p, b, k, fwd)
    ensures p != fwd && p != k && s.m.FdNext(k) == fwd
    ensures var m1 := s.m.SetFdNext(p, fwd).SetBkNext(p, k).SetBkNext(fwd, p).SetFdNext(k, p);
            && RingWritten(s.m, m1, p, k, fwd) && m1.Bk(fwd) == s.m.Bk(fwd) && m1.Fd(m1.Bk(fwd)) == fwd
  {
    var bck := s.m.Bk(fwd);
    SpotNodes(s, p, b, bck, fwd, k, fwd);
    SpotOffset(s, p, b, bck, fwd, p);
    SpotOffset(s, p, b, bck, fwd, fwd);
    SpotOffset(s, p, b, bck, fwd, k);
  }
}
