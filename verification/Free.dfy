/** Freeing: `_int_free_create_chunk`, `_int_free_merge_chunk` and their helpers. */
module Free {
  import opened Sizes
  import opened Memory
  import opened Protect
  import opened Heap
  import opened RingProofs
  import opened LayoutProofs
  import opened Steps
  import opened ListingProofs
  import opened UnlinkProofs
  import opened LinkProofs
  import opened Arena
  import opened Binmap
  import opened Unlink

  /** The words written when the owned chunk `p` of size n is put between bck and fwd and tagged. */
  ghost predicate Placing(m: Mem, m': Mem, p: int, n: int, bck: int, fwd: int) {
    && m'.Fd(p) == fwd && m'.Bk(p) == bck && m'.Fd(bck) == p && m'.Bk(fwd) == p
    && m'.Head(p) == n + 1 && m'.PrevSize(p + n) == n
    && (!InSmallRange(n) ==> m'.FdNext(p) == NULL && m'.BkNext(p) == NULL)
    && (forall a {:trigger m'.e(a)} :: a != p + 16 && a != p + n && a != bck + 16 && (a != p + 32 || InSmallRange(n)) ==> m'.e(a) == m.e(a))
    && (forall a {:trigger m'.o(a)} :: a != p + 16 && a != p && a != fwd + 16 && (a != p + 32 || InSmallRange(n)) ==> m'.o(a) == m.o(a))
  }

  /** The owned chunk `p` may go between the header of bin b and its first chunk. */
  ghost predicate Placeable(m: Mem, H: Heap, p: int, b: int)
    requires p in H
  {
    var q := p + H[p].n;
    && Apt(H, p, b) && b < 64
    && q in H && !H[q].st.Raw? && m.Head(q) == H[q].n
  }

  lemma PlacingSound(m: Mem, m': Mem, H: Heap, base: int, top: int, p: int, b: int)
    requires Core(m, H, base, top) && p in H && Placeable(m, H, p, b)
    requires Placing(m, m', p, H[p].n, Hdr(b), m.Fd(Hdr(b)))
    ensures var r := FrontRank(m, H, base, top, b);
            Core(m', H[p := Chunk(H[p].n, Binned(b, r))], base, top)
  {
    var n, bck, fwd := H[p].n, Hdr(b), m.Fd(Hdr(b));
    var q, r := p + n, FrontRank(m, H, base, top, b);
    assert RingAt(m, H, b, bck) && Node(H, fwd, b);
    var A := if InSmallRange(n) then {p, p + 16, q} else {p, p + 16, p + 32, q};
    forall a | a in A ensures Outside(H, a) {
      RawOutside(H, base, top, p, a);
    }
    assert Relinked(m, m', H, bck, fwd, A, {});
    forall a | a in A && a in H ensures a == p || a == q {
      RawInterior(H, base, top, p, a);
    }
    BoundaryOffset(m, H, base, top, q, fwd, b);
    BoundaryOffset(m, H, base, top, q, bck, b);
    assert Tagged(m, m', H, p);
    BinStep(m, m', H, H[p := Chunk(n, Binned(b, r))], base, top, p, b, r, bck, fwd, A);
  }

  lemma PlacingRest(m: Mem, m': Mem, H: Heap, base: int, top: int, p: int, b: int)
    requires Core(m, H, base, top) && p in H && Placeable(m, H, p, b)
    requires Placing(m, m', p, H[p].n, Hdr(b), m.Fd(Hdr(b)))
    ensures top >= base ==> m'.Head(top) == m.Head(top)
    ensures Kept(m, m', LiveOf(H)) && AboveSame(m, m', top)
  {
    var fwd, q := m.Fd(Hdr(b)), p + H[p].n;
    CoreLow(m, H, base, top);
    assert RingAt(m, H, b, Hdr(b)) && Node(H, fwd, b);
    assert Placed(H, base, top, p) && Placed(H, base, top, q);
    if top >= base {
      BoundaryOffset(m, H, base, top, top, fwd, b);
    }
    assert InBin(H, fwd, b) ==> Placed(H, base, top, fwd) && BinOk(H, fwd);
    TouchesKept(m, m', H, base, top, p, fwd, p, p);
  }

  lemma RawInterior(H: Heap, base: int, top: int, p: int, a: int)
    requires Tiled(H, base, top) && p in H && a in H && p <= a <= p + H[p].n
    ensures a == p || a == p + H[p].n
  {
    assert Placed(H, base, top, a);
    assert a != p ==> Apart(H, a, p);
  }

  /** A rank in front of every chunk of bin b. */
  ghost function FrontRank(m: Mem, H: Heap, base: int, top: int, b: int): (r: real)
    requires Core(m, H, base, top) && 1 <= b <= 126
    ensures Slot(m, H, b, Hdr(b), m.Fd(Hdr(b)), r)
  {
    CoreLow(m, H, base, top);
    assert RingAt(m, H, b, Hdr(b));
    RankBetween(H, b, Hdr(b), m.Fd(Hdr(b)))
  }

  /** Facts that every change of use of one chunk preserves. */
  lemma RestFrame(H: Heap, H': Heap, s: Binmap, slots: seq<int>)
    requires Marks(s, H) && Slots(slots, H) && SameListed(H, H')
    requires forall b, p {:trigger InBin(H', p, b)} :: InBin(H', p, b) && 2 <= b <= 126 ==> InBin(H, p, b) || Marked(s, b)
    ensures Marks(s, H') && Slots(slots, H')
  {
    SlotsFrame(slots, H, H');
    forall b, p | 2 <= b <= 126 && InBin(H', p, b) ensures Marked(s, b) {
      assert InBin(H, p, b) ==> Marked(s, b);
    }
  }

  lemma MarkSound(s: State, i: int)
    requires Sound(s) && 0 <= i < 128
    ensures Sound(s.(binmap := Mark(s.binmap, i))) && Marked(Mark(s.binmap, i), i)
  {
    MarkMarks(s.binmap, i, i);
    forall b, p | 2 <= b <= 126 && InBin(s.H, p, b) ensures Marked(Mark(s.binmap, i), b) {
      MarkMarks(s.binmap, i, b);
    }
  }

  /** The bin a freed chunk goes to: small chunks straight to their bin, large ones to the unsorted list. */
  function FreeBin(n: int): int {
    if InSmallRange(n) then n / 16 else UNSORTED
  }

  /** The words written for a placement do not overlap. */
  lemma PlaceFacts(m: Mem, H: Heap, base: int, top: int, p: int, b: int)
    requires Core(m, H, base, top) && p in H && Placeable(m, H, p, b)
    ensures var n, fwd, bck := H[p].n, m.Fd(Hdr(b)), Hdr(b);
            && p >= HEAP_MIN && fwd != p && bck != p && fwd + 16 != p && bck + 16 != p
            && fwd + 16 != p + n && bck + 16 != p + n && (fwd != bck ==> fwd >= HEAP_MIN)
            && (!InSmallRange(n) ==> fwd + 16 != p + 32 && bck + 16 != p + 32)
  {
    CoreLow(m, H, base, top);
    var fwd := m.Fd(Hdr(b));
    assert RingAt(m, H, b, Hdr(b)) && Node(H, fwd, b);
    BoundaryOffset(m, H, base, top, p, fwd, b);
    BoundaryOffset(m, H, base, top, p + H[p].n, fwd, b);
    if !InSmallRange(H[p].n) {
      LinkOffset(H, base, top, p, fwd, b);
    }
  }

  lemma FrontGuard(s: State, p: int, b: int)
    requires Sound(s) && p in s.H && Placeable(s.m, s.H, p, b)
    ensures s.m.Bk(s.m.Fd(Hdr(b))) == Hdr(b) && s.H[p].n >= MINSIZE
  {
    assert RingAt(s.m, s.H, b, Hdr(b));
  }

  /** The last stores of a placement, in the order of `_int_free_create_chunk`; `m` is memory after
      the nextsize links of a large chunk were cleared. */
  function PlacedWords(m: Mem, p: int, n: int, bck: int, fwd: int): Mem {
    m.Insert(p, bck, fwd).SetHead(p, n + 1).SetPrevSize(p + n, n)
  }

  ghost predicate Prepared(m: Mem, m1: Mem, p: int, n: int) {
    if InSmallRange(n) then m1 == m else m1 == m.SetFdNext(p, NULL).SetBkNext(p, NULL)
  }

  lemma PlaceStores(m: Mem, m1: Mem, H: Heap, base: int, top: int, p: int, b: int)
    requires Core(m, H, base, top) && p in H && Placeable(m, H, p, b) && Prepared(m, m1, p, H[p].n)
    ensures Placing(m, PlacedWords(m1, p, H[p].n, Hdr(b), m.Fd(Hdr(b))), p, H[p].n, Hdr(b), m.Fd(Hdr(b)))
  {
    PlaceFacts(m, H, base, top, p, b);
  }

  ghost function PlacedHeap(s: State, p: int, b: int): Heap
    requires Sound(s) && p in s.H && 1 <= b <= 126
  {
    s.H[p := Chunk(s.H[p].n, Binned(b, FrontRank(s.m, s.H, s.base, s.top, b)))]
  }

  lemma Occupied(s: State, p: int)
    requires Sound(s) && p in s.H
    ensures s.top != Hdr(UNSORTED) && HEAP_MIN <= s.base <= s.top && p >= HEAP_MIN
  {
    hide Links, Marks, Slots, Fresh;
    assert Placed(s.H, s.base, s.top, p);
  }

  /** Whatever the order of the stores, the owned chunk is in its bin and all is well. */
  lemma PlacedSound(s: State, m': Mem, p: int, b: int)
    requires Sound(s) && p in s.H && Placeable(s.m, s.H, p, b) && (b >= 2 ==> Marked(s.binmap, b))
    requires Placing(s.m, m', p, s.H[p].n, Hdr(b), s.m.Fd(Hdr(b)))
    ensures var H' := PlacedHeap(s, p, b);
            Sound(s.(m := m', H := H')) && Kept(s.m, m', LiveOf(s.H)) && LiveOf(H') == LiveOf(s.H)
  {
    hide Core, TopOk, Fresh, Slots, Placing;
    var H' := PlacedHeap(s, p, b);
    Occupied(s, p);
    PlacingSound(s.m, m', s.H, s.base, s.top, p, b);
    PlacingRest(s.m, m', s.H, s.base, s.top, p, b);
    TopFrame(s, m', H');
    FreshKeeps(s, m');
    RestFrame(s.H, H', s.binmap, s.slots);
  }

  lemma PlacementDone(s: State, m1: Mem, p: int, b: int, bck: int, fwd: int)
    requires Sound(s) && p in s.H && Placeable(s.m, s.H, p, b) && (b >= 2 ==> Marked(s.binmap, b))
    requires Prepared(s.m, m1, p, s.H[p].n) && bck == Hdr(b) && fwd == s.m.Fd(bck)
    ensures var m', H' := PlacedWords(m1, p, s.H[p].n, bck, fwd), PlacedHeap(s, p, b);
            Sound(s.(m := m', H := H')) && Kept(s.m, m', LiveOf(s.H)) && LiveOf(H') == LiveOf(s.H) && m'.Fd(bck) == p
  {
    hide Sound, Placing, PlacedWords;
    CoreIn(s);
    PlaceStores(s.m, m1, s.H, s.base, s.top, p, b);
    PlacedFirst(s.m, PlacedWords(m1, p, s.H[p].n, bck, fwd), p, s.H[p].n, bck, fwd);
    PlacedSound(s, PlacedWords(m1, p, s.H[p].n, bck, fwd), p, b);
  }

  lemma PlacedFirst(m: Mem, m': Mem, p: int, n: int, bck: int, fwd: int)
    requires Placing(m, m', p, n, bck, fwd)
    ensures m'.Fd(bck) == p
  {}

  lemma CoreIn(s: State)
    requires Sound(s)
    ensures Core(s.m, s.H, s.base, s.top)
  {}

  /** The second half of `_int_free_create_chunk`: link the chunk into its bin and write its tags. */
  method BinNewChunk(av: MallocState, p: int, size: int)
    requires av.Ok() && p in av.H && av.H[p].n == size && Placeable(av.m, av.H, p, FreeBin(size))
    modifies av`m, av`H, av`binmap
    ensures av.Ok() && p in av.H && InBin(av.H, p, FreeBin(size))
    ensures av.H == old(av.H)[p := av.H[p]] && av.H[p].n == size && av.m.Fd(Hdr(FreeBin(size))) == p
    ensures LiveOf(av.H) == old(LiveOf(av.H)) && Kept(old(av.m), av.m, LiveOf(av.H)) && SameListed(old(av.H), av.H)
  {
    hide Sound, Kept, LiveOf, Put, FrontRank, Mem.Insert, Mark;
    ghost var m0, s0, b := av.m, av.S(), FreeBin(size);
    FrontGuard(s0, p, b);
    var bck, fwd;
    if !InSmallRange(size) {
      bck := Hdr(UNSORTED);
      fwd := av.m.Fd(bck);
      if av.m.Bk(fwd) != bck {
        assert false; // free(): corrupted unsorted chunks
      }
      av.m := av.m.SetFdNext(p, NULL);
      av.m := av.m.SetBkNext(p, NULL);
    } else {
      var index := size / 16;
      bck := Hdr(index);
      fwd := av.m.Fd(bck);
      if av.m.Bk(fwd) != bck {
        assert false; // free(): chunks in smallbin corrupted
      }
      MarkSound(s0, index);
      av.binmap := Mark(av.binmap, index);
    }
    ghost var s1, m1 := s0.(binmap := av.binmap), av.m;
    av.m := av.m.Insert(p, bck, fwd);
    av.m := av.m.SetHead(p, size + 1).SetPrevSize(p + size, size);
    PlacementDone(s1, m1, p, b, bck, fwd);
    assert av.m == PlacedWords(m1, p, size, bck, fwd);
    av.H := PlacedHeap(s1, p, b);
    assert av.S() == s1.(m := av.m, H := av.H);
  }


  // ---------------------------------------------------------------- _int_free_create_chunk

  /** `p` is the one chunk the operation owns, `next` is what follows it, and the two can end up as a
      legal chunk: `p` alone is large enough, or what follows is unused. */
  ghost predicate Creatable(s: State, p: int, next: int) {
    && Sound(s) && p in s.H && s.H[p].st.Raw? && OnlyRaw(s.H, p) && next == p + s.H[p].n
    && (next == s.top || next in s.H)
    && (s.H[p].n >= MINSIZE || next == s.top || (next in s.H && s.H[next].st.Binned?))
  }

  lemma CreateFacts(s: State, p: int, next: int)
    requires Creatable(s, p, next)
    ensures s.top != Hdr(UNSORTED) && s.base <= s.top
    ensures if next == s.top then s.m.Size(next) == s.sbrkBase + s.systemMem - s.top && next !in s.H
            else !s.H[next].st.Raw? && s.m.Size(next) == s.H[next].n
                 && (s.m.PrevInuse(next + s.H[next].n) <==> !s.H[next].st.Binned?)
  {
    hide Links, Marks, Slots;
    assert Placed(s.H, s.base, s.top, p);
    if next == s.top {
      assert next in s.H ==> Placed(s.H, s.base, s.top, next);
      PageMultiple(s.sbrkBase + s.systemMem, s.top);
      HeadDecodes(s.m, next, s.sbrkBase + s.systemMem - s.top);
    } else {
      assert Placed(s.H, s.base, s.top, next);
      EndsOnce(s.H, s.base, s.top, p, next - 16);
      assert next + s.H[next].n != p;
      NextFacts(s, next);
    }
  }

  /** What the head of a chunk and the P bit behind it say. */
  lemma NextFacts(s: State, c: int)
    requires Sound(s) && c in s.H && !s.H[c].st.Raw? && !s.H[c].st.Gap?
    requires c + s.H[c].n in s.H ==> !s.H[c + s.H[c].n].st.Raw?
    ensures s.m.Size(c) == s.H[c].n && (s.m.PrevInuse(c + s.H[c].n) <==> !s.H[c].st.Binned?)
  {
    hide Links, Marks, Slots;
    var q := c + s.H[c].n;
    assert Placed(s.H, s.base, s.top, c) && TagAt(s.m, s.H, s.top, c);
    HeadDecodes(s.m, c, s.H[c].n);
    if q in s.H {
      assert Placed(s.H, s.base, s.top, q) && TagAt(s.m, s.H, s.top, q);
      HeadDecodes(s.m, q, if s.H[q].st.Gap? then 16 else s.H[q].n);
    } else {
      PageMultiple(s.sbrkBase + s.systemMem, s.top);
      HeadDecodes(s.m, q, s.sbrkBase + s.systemMem - s.top);
    }
  }

  /** The owned chunk below top becomes the new top. */
  function TopWords(m: Mem, p: int, size: int): Mem {
    m.SetHead(p, size + 1)
  }

  lemma CreateAtTop(s: State, p: int)
    requires Creatable(s, p, s.top)
    ensures var m', H' := TopWords(s.m, p, s.H[p].n + s.m.Size(s.top)), Dropped(s.H, p);
            && Sound(s.(m := m', H := H', top := p)) && m'.Size(p) == s.H[p].n + s.m.Size(s.top) && LiveOf(H') == LiveOf(s.H) && Kept(s.m, m', LiveOf(H'))
            && NoRaw(H') && SameListed(s.H, H') && p < s.top
  {
    hide Links, Marks, Slots;
    var m', H' := TopWords(s.m, p, s.H[p].n + s.m.Size(s.top)), Dropped(s.H, p);
    CreateFacts(s, p, s.top);
    assert Placed(s.H, s.base, s.top, p);
    TopGrows(s, p, s.H[p].n);
    AbsorbStep(s.m, s.H, s.base, s.top, p);
    BoundaryOutside(H', s.base, p, p);
    LooseStores(s.m, m', H', s.base, p, {p});
    RestFrame(s.H, H', s.binmap, s.slots);
    TouchesKept(s.m, m', s.H, s.base, s.top, p, p, p, p);
    FreshKeeps(s, m');
  }

  lemma TopGrows(s: State, p: int, n: int)
    requires TopOk(s.m, s.H, s.base, s.top, s.sbrkBase, s.systemMem) && s.top != Hdr(UNSORTED)
    requires p + n == s.top && n % 16 == 0 && n > 0 && p % 16 == 0 && s.base <= p && s.base >= HEAP_MIN
    ensures var size := n + s.m.Size(s.top); var m' := TopWords(s.m, p, size);
            TopOk(m', Dropped(s.H, p), s.base, p, s.sbrkBase, s.systemMem) && m'.Size(p) == size
  {
    hide Mem.Size, Mem.Head, TopWords;
    var rest := s.sbrkBase + s.systemMem - s.top;
    PageMultiple(s.sbrkBase + s.systemMem, s.top);
    HeadDecodes(s.m, s.top, rest);
    SixteenSum(n, rest);
    TopHead(s.m, p, n + rest);
  }

  lemma TopHead(m: Mem, p: int, size: int)
    requires size % 16 == 0
    ensures TopWords(m, p, size).Size(p) == size && TopWords(m, p, size).Head(p) == size + 1
  {
    HeadDecodes(TopWords(m, p, size), p, size);
  }

  lemma FreeBinFacts(n: int)
    requires n >= MINSIZE
    ensures 1 <= FreeBin(n) < 64 && (FreeBin(n) == UNSORTED || FreeBin(n) == BinIndex(n))
  {
    BinIndexRange(n);
  }

  lemma TopFrame(s: State, m': Mem, H': Heap)
    requires TopOk(s.m, s.H, s.base, s.top, s.sbrkBase, s.systemMem) && s.top != Hdr(UNSORTED) && m'.Head(s.top) == s.m.Head(s.top)
    ensures TopOk(m', H', s.base, s.top, s.sbrkBase, s.systemMem)
  {}

  lemma ClearSound(s: State, p: int, next: int)
    requires Creatable(s, p, next) && next != s.top && !s.H[next].st.Binned?
    ensures var m' := s.m.ClearPrevInuse(next);
            && p in s.H && Sound(s.(m := m')) && SameListed(s.H, s.H) && Kept(s.m, m', LiveOf(s.H)) && Placeable(m', s.H, p, FreeBin(s.H[p].n)) && Placeable(m', s.H, p, UNSORTED)
  {
    hide Core, Marks, Slots, Fresh, TopOk, FreeBin, BinIndex;
    var m' := s.m.ClearPrevInuse(next);
    CreateFacts(s, p, next);
    ClearCore(s, p, next);
    TopFrame(s, m', s.H);
    FreeBinFacts(s.H[p].n);
    FreshKeeps(s, m');
  }

  lemma ClearCore(s: State, p: int, next: int)
    requires Creatable(s, p, next) && next != s.top && !s.H[next].st.Binned?
    ensures var m' := s.m.ClearPrevInuse(next);
            && Core(m', s.H, s.base, s.top) && Kept(s.m, m', LiveOf(s.H)) && AboveSame(s.m, m', s.top)
            && m'.Head(next) == s.H[next].n && m'.Head(s.top) == s.m.Head(s.top) && s.H[p].n >= MINSIZE
  {
    hide Links, Marks, Slots, Fresh, TopOk;
    var m' := s.m.ClearPrevInuse(next);
    assert Placed(s.H, s.base, s.top, p) && Placed(s.H, s.base, s.top, next) && TagAt(s.m, s.H, s.top, next);
    assert RawBefore(s.H, next);
    HeadDecodes(s.m, next, s.H[next].n);
    BoundaryOutside(s.H, s.base, s.top, next);
    LooseStores(s.m, m', s.H, s.base, s.top, {next});
    TouchesKept(s.m, m', s.H, s.base, s.top, p, p, p, p);
  }

  /** After the chunk behind `p` was unlinked, the two are one owned chunk that can be placed. */
  lemma MergeSound(s: State, s1: State, p: int, next: int)
    requires Creatable(s, p, next) && next != s.top && s.H[next].st.Binned?
    requires Sound(s1) && s1.H == s.H[next := Chunk(s.H[next].n, Raw)] && s1.top == s.top && s1.base == s.base
    requires TagWordsSame(s.m, s1.m, s.H)
    ensures var H' := Joined(s1.H, p, next);
            && Sound(s1.(H := H')) && LiveOf(H') == LiveOf(s.H) && Placeable(s1.m, H', p, FreeBin(H'[p].n)) && Placeable(s1.m, H', p, UNSORTED)
            && H'[p].n == s.H[p].n + s.H[next].n && OnlyRaw(H', p) && SameListed(s.H, H')
  {
    hide Core, Fresh, FreeBin, BinIndex, Slots;
    var H' := Joined(s1.H, p, next);
    MergeCore(s, s1, p, next);
    RestFrame(s1.H, H', s1.binmap, s1.slots);
    FreeBinFacts(H'[p].n);
  }

  lemma MergeCore(s: State, s1: State, p: int, next: int)
    requires Creatable(s, p, next) && next != s.top && s.H[next].st.Binned?
    requires Sound(s1) && s1.H == s.H[next := Chunk(s.H[next].n, Raw)] && s1.top == s.top && s1.base == s.base
    requires TagWordsSame(s.m, s1.m, s.H)
    ensures var H' := Joined(s1.H, p, next); var q := next + s.H[next].n;
            && Core(s1.m, H', s.base, s.top) && H'[p].n >= MINSIZE && q in H' && !H'[q].st.Raw? && s1.m.Head(q) == H'[q].n
            && next != p && s1.top != Hdr(UNSORTED)
  {
    hide Links, Fresh, Slots, Marks;
    JoinStep(s1.m, s1.H, s.base, s.top, p, next);
    assert TagAt(s.m, s.H, s.top, next) && Placed(s.H, s.base, s.top, next) && Placed(s.H, s.base, s.top, p);
    var q := next + s.H[next].n;
    assert q in s.H;
    assert s1.m.Head(q) == s.m.Head(q);
  }

  /** Turn the owned chunk `p` into a free one, merged with what follows it if that is unused. The
      chunk's own head is not read. Returns the size of the result. */
  method FreeCreateChunk(av: MallocState, p: int, size0: int, nextchunk: int, nextsize: int) returns (size: int)
    requires Creatable(av.S(), p, nextchunk) && size0 == av.H[p].n && nextsize == av.m.Size(nextchunk)
    modifies av`m, av`H, av`binmap, av`top
    ensures av.Ok() && NoRaw(av.H) && SameListed(old(av.H), av.H)
    ensures LiveOf(av.H) == old(LiveOf(av.H)) && Kept(old(av.m), av.m, LiveOf(av.H))
    ensures av.top <= old(av.top) && SameFences(old(av.H), av.H)
    ensures if nextchunk == old(av.top) then av.top == p && size == size0 + nextsize && av.m.Size(p) == size && av.m == TopWords(old(av.m), p, size)
            else av.top == old(av.top) && InBin(av.H, p, FreeBin(size)) && av.H[p].n == size && av.m.Fd(Hdr(FreeBin(size))) == p
                 && size == size0 + (if old(av.H)[nextchunk].st.Binned? then nextsize else 0)
  {
    hide Sound, Kept, LiveOf, SameListed, Put, Placeable;
    size := size0;
    ghost var s0 := av.S();
    CreateFacts(s0, p, nextchunk);
    if nextchunk != av.top {
      var nextinuse := av.m.PrevInuse(nextchunk + nextsize);
      if !nextinuse {
        UnlinkChunk(av, nextchunk);
        size := size + nextsize;
        MergeSound(s0, av.S(), p, nextchunk);
        av.H := Joined(av.H, p, nextchunk);
      } else {
        ClearSound(s0, p, nextchunk);
        av.m := av.m.ClearPrevInuse(nextchunk);
      }
      ghost var s1 := av.S();
      BinNewChunk(av, p, size);
      KeptTrans(s0.m, s1.m, av.m, LiveOf(s0.H));
      SameListedTrans(s0.H, s1.H, av.H);
    } else {
      size := size + nextsize;
      CreateAtTop(s0, p);
      av.m := av.m.SetHead(p, size + 1);
      av.top := p;
      av.H := Dropped(av.H, p);
    }
  }

  // ---------------------------------------------------------------- merging with the chunk below

  /** The size of what block `p` becomes part of when it is merged with its unused neighbours. */
  ghost function MergedSize(s: State, p: int): int
    requires p in s.H
  {
    var next := p + s.H[p].n;
    s.H[p].n
    + (if s.m.PrevInuse(p) then 0 else s.m.PrevSize(p))
    + (if next == s.top then s.m.Size(next) else if next in s.H && s.H[next].st.Binned? then s.H[next].n else 0)
  }

  /** Where that begins. */
  ghost function MergedAt(s: State, p: int): int {
    if s.m.PrevInuse(p) then p else p - s.m.PrevSize(p)
  }

  /** The chunk, merged with its unused neighbours, is the beginning of top or the first unsorted chunk. */
  ghost predicate Refiled(s0: State, s1: State, p: int)
    requires p in s0.H
  {
    var at, size := MergedAt(s0, p), MergedSize(s0, p);
    if p + s0.H[p].n == s0.top then s1.top == at
    else s1.top == s0.top && InBin(s1.H, at, UNSORTED) && s1.H[at].n == size && s1.m.Fd(Hdr(UNSORTED)) == at
  }

  /** `p` is a block being freed, or the first chunk of the detached chain. */
  ghost predicate Releasing(s: State, p: int) {
    Sound(s) && NoRaw(s.H) && p in s.H && (s.H[p].st.Live? || (InList(s.H, p, DETACHED) && ChainHead(s.H, p)))
  }

  lemma BelowFacts(s: State, p: int)
    requires Releasing(s, p)
    ensures s.m.Size(p) == s.H[p].n > 0 && p + s.H[p].n <= s.top && s.base <= p && p % 16 == 0
    ensures s.m.PrevInuse(p) ==> s.m.Head(p) == s.H[p].n + 1
    ensures !s.m.PrevInuse(p) ==>
        var d := p - s.m.PrevSize(p);
        d in s.H && d < p && s.H[d].st.Binned? && s.H[d].n == s.m.PrevSize(p) && s.m.Size(d) == s.H[d].n
  {
    hide Links, Marks, Slots;
    assert Placed(s.H, s.base, s.top, p) && TagAt(s.m, s.H, s.top, p);
    HeadDecodes(s.m, p, s.H[p].n);
    if !s.m.PrevInuse(p) {
      var d := p - s.m.PrevSize(p);
      assert !RawBefore(s.H, p);
      assert Placed(s.H, s.base, s.top, d) && TagAt(s.m, s.H, s.top, d);
      HeadDecodes(s.m, d, s.H[d].n);
    }
  }

  ghost predicate IsFence(H: Heap, x: int) {
    x in H && (H[x].st.Fence? || H[x].st.Gap?)
  }

  /** The fenceposts and gaps between segments are just what they were. */
  ghost predicate SameFences(H: Heap, H': Heap) {
    forall x {:trigger IsFence(H', x)} {:trigger IsFence(H, x)} :: (IsFence(H, x) <==> IsFence(H', x)) && (IsFence(H, x) ==> H'[x] == H[x])
  }

  lemma SameFencesTrans(H0: Heap, H1: Heap, H2: Heap)
    requires SameFences(H0, H1) && SameFences(H1, H2)
    ensures SameFences(H0, H2)
  {
    forall x ensures (IsFence(H0, x) <==> IsFence(H2, x)) && (IsFence(H0, x) ==> H2[x] == H0[x]) {
      assert IsFence(H0, x) <==> IsFence(H1, x);
    }
  }

  /** The sorted bins of H' hold nothing that those of H did not. */
  ghost predicate SortedSub(H: Heap, H': Heap) {
    forall x, b {:trigger InBin(H', x, b)} :: b >= 2 && InBin(H', x, b) ==> InBin(H, x, b) && H'[x].n == H[x].n
  }

  lemma SortedSubTrans(H0: Heap, H1: Heap, H2: Heap)
    requires SortedSub(H0, H1) && SortedSub(H1, H2)
    ensures SortedSub(H0, H2)
  {
    forall x, b | b >= 2 && InBin(H2, x, b) ensures InBin(H0, x, b) && H2[x].n == H0[x].n {
      assert InBin(H1, x, b);
    }
  }

  /** The lists of H' are those of H without the chunk `p`. */
  ghost predicate ListedBut(H: Heap, H': Heap, p: int) {
    forall x, l {:trigger InList(H', x, l)} ::
      (InList(H', x, l) <==> InList(H, x, l) && x != p) && (InList(H', x, l) ==> H'[x] == H[x])
  }

  /** What the operation owns after the block and the free chunk below it were joined. */
  ghost predicate Taken(s0: State, s: State, p0: int, p: int, size: int)
    requires p0 in s0.H
  {
    && Sound(s) && s.top == s0.top && s.base == s0.base && s.sbrkBase == s0.sbrkBase && s.systemMem == s0.systemMem && s.mark == s0.mark
    && p in s.H && s.H[p] == Chunk(size, Raw) && OnlyRaw(s.H, p) && p + size == p0 + s0.H[p0].n && size >= s0.H[p0].n
    && (if s0.H[p0].st.Live? then
          LiveOf(s.H) == LiveOf(s0.H) - {p0} && SameListed(s0.H, s.H)
        else
          LiveOf(s.H) == LiveOf(s0.H) && ChainHead(s.H, Mask(p0 + 16, s0.m.Fd(p0)))
          && ListedBut(s0.H, s.H, p0))
  }

  lemma TakeSound(s0: State, s: State, p: int)
    requires Releasing(s0, p) && Sound(s) && s.(m := s0.m, H := s0.H) == s0
    requires s.H == s0.H && s.m == s0.m && s.m.PrevInuse(p)
    ensures var H' := s.H[p := Chunk(s.H[p].n, Raw)]; Taken(s0, s.(H := H'), p, p, s.H[p].n)
  {
    var H' := s.H[p := Chunk(s.H[p].n, Raw)];
    BelowFacts(s0, p);
    assert Marks(s.binmap, H') by {
      forall b, x | 2 <= b <= 126 && InBin(H', x, b) ensures Marked(s.binmap, b) {
        assert InBin(s.H, x, b);
      }
    }
    assert OnlyRaw(H', p);
    if s.H[p].st.Live? {
      TakeStep(s.m, s.H, s.base, s.top, p);
      SlotsFrame(s.slots, s.H, H');
      assert LiveOf(H') == LiveOf(s.H) - {p};
    } else {
      ChainStep(s.m, s.H, H', s.base, s.top, p);
      SlotsChain(s.slots, s.H, H', p);
    }
  }

  lemma SlotsChain(slots: seq<int>, H: Heap, H': Heap, p: int)
    requires Slots(slots, H) && InList(H, p, DETACHED) && H' == H[p := Chunk(H[p].n, Raw)]
    ensures Slots(slots, H')
  {
    forall l | l >= 10 ensures Members(H', l) == Members(H, l) {
      forall x ensures x in Members(H', l) <==> x in Members(H, l) {
        assert InList(H', x, l) <==> InList(H, x, l);
      }
    }
  }

  /** `s1` is the state after the free chunk `d` below `p` was unlinked. */
  lemma BelowSound(s0: State, s1: State, p: int, d: int)
    requires Releasing(s0, p) && d in s0.H && s0.H[d].st.Binned? && d + s0.H[d].n == p
    requires Sound(s1) && s1 == s0.(m := s1.m, H := s0.H[d := Chunk(s0.H[d].n, Raw)])
    requires CellWordsSame(s0.m, s1.m, s0.H) && LiveOf(s1.H) == LiveOf(s0.H)
    ensures var H' := Joined(s1.H[p := Chunk(s1.H[p].n, Raw)], d, p);
            Taken(s0, s1.(H := H'), p, d, s0.H[d].n + s0.H[p].n)
  {
    var H2 := s1.H[p := Chunk(s1.H[p].n, Raw)];
    assert Placed(s0.H, s0.base, s0.top, d);
    assert s1.H[d].st.Raw?;
    assert RawBefore(s1.H, p);
    if s1.H[p].st.Live? {
      TakeStep(s1.m, s1.H, s1.base, s1.top, p);
    } else {
      assert InList(s1.H, p, DETACHED) && s1.m.Fd(p) == s0.m.Fd(p);
      ChainFrame(s0.H, s1.H, p);
      ChainStep(s1.m, s1.H, H2, s1.base, s1.top, p);
    }
    JoinStep(s1.m, H2, s1.base, s1.top, d, p);
    BelowRest(s0, s1, p, d);
    if !s1.H[p].st.Live? {
      ChainFrame(H2, Joined(H2, d, p), Mask(p + 16, s0.m.Fd(p)));
    }
  }

  lemma ChainFrame(H: Heap, H': Heap, p: int)
    requires ChainHead(H, p) && SameListed(H, H')
    ensures ChainHead(H', p)
  {}

  lemma BelowRest(s0: State, s1: State, p: int, d: int)
    requires Releasing(s0, p) && d in s0.H && s0.H[d].st.Binned? && d + s0.H[d].n == p && d != p
    requires Sound(s1) && s1.H == s0.H[d := Chunk(s0.H[d].n, Raw)] && LiveOf(s1.H) == LiveOf(s0.H)
    ensures var H2 := s1.H[p := Chunk(s1.H[p].n, Raw)]; var H' := Joined(H2, d, p);
            && Marks(s1.binmap, H') && Slots(s1.slots, H') && OnlyRaw(H', d)
            && (if s0.H[p].st.Live? then LiveOf(H') == LiveOf(s0.H) - {p} && SameListed(s0.H, H')
                else LiveOf(H') == LiveOf(s0.H)
                     && ListedBut(s0.H, H', p) && SameListed(H2, H'))
  {
    hide Core, TopOk, Fresh;
    var H2 := s1.H[p := Chunk(s1.H[p].n, Raw)];
    var H' := Joined(H2, d, p);
    forall b, x | 2 <= b <= 126 && InBin(H', x, b) ensures Marked(s1.binmap, b) {
      assert InBin(s1.H, x, b);
    }
    assert SameListed(H2, H');
    if s0.H[p].st.Live? {
      SlotsFrame(s1.slots, s1.H, H');
      assert LiveOf(H') == LiveOf(s1.H) - {p};
    } else {
      assert InList(s1.H, p, DETACHED);
      SlotsChain(s1.slots, s1.H, H2, p);
      SlotsFrame(s1.slots, H2, H');
      assert LiveOf(H') == LiveOf(s1.H);
    }
  }

  /** If the chunk below `p0` is free, take it off its bin and start from there. */
  method MergeBackward(av: MallocState, p0: int, size0: int) returns (p: int, size: int)
    requires Releasing(av.S(), p0) && size0 == av.H[p0].n
    modifies av`m, av`H
    ensures Taken(old(av.S()), av.S(), p0, p, size)
    ensures Kept(old(av.m), av.m, LiveOf(av.H)) && p + size == p0 + size0 && p <= p0 && (old(av.m.PrevInuse(p0)) ==> av.m == old(av.m))
    ensures size == size0 + (if old(av.m.PrevInuse(p0)) then 0 else old(av.m.PrevSize(p0)))
    ensures p + size in old(av.H) ==> av.m.Size(p + size) == old(av.m.Size(p + size)) && p + size in av.H && av.H[p + size] == old(av.H)[p + size]
    ensures av.binmap == old(av.binmap) && av.m.Head(av.top) == old(av.m.Head(av.top)) && SortedSub(old(av.H), av.H) && SameFences(old(av.H), av.H)
  {
    hide Sound, SameListed, Taken, CellWordsSame;
    p, size := p0, size0;
    ghost var s0 := av.S();
    BelowFacts(s0, p0);
    if !av.m.PrevInuse(p) {
      var prevsize := av.m.PrevSize(p);
      size := size + prevsize;
      p := p - prevsize;
      if av.m.Size(p) != prevsize {
        assert false; // corrupted size vs. prev_size while consolidating
      }
      UnlinkChunk(av, p);
      BelowSound(s0, av.S(), p0, p);
      av.H := Joined(av.H[p0 := Chunk(size0, Raw)], p, p0);
    } else {
      TakeSound(s0, s0, p0);
      av.H := av.H[p := Chunk(size, Raw)];
    }
  }

  lemma TakenCreatable(s0: State, s: State, p0: int, p: int, size: int)
    requires Releasing(s0, p0) && Taken(s0, s, p0, p, size)
    ensures Creatable(s, p, p + size) && p >= HEAP_MIN
  {
    hide Links, Marks, Slots;
    assert Placed(s0.H, s0.base, s0.top, p0) && Placed(s.H, s.base, s.top, p);
  }

  /** What the corruption checks of `_int_free_merge_chunk` and `_int_realloc` read behind a live block. */
  lemma BehindFacts(s: State, p: int)
    requires Sound(s) && NoRaw(s.H) && p in s.H && (s.H[p].st.Live? || s.H[p].st.Listed?)
    ensures var next := p + s.H[p].n;
            && p < s.top && next < s.top + s.m.Size(s.top) && s.m.PrevInuse(next)
            && (next == s.top || next in s.H)
            && s.m.Head(next) > CHUNK_HDR_SZ && s.m.Size(next) < s.systemMem && s.H[p].n < s.systemMem
            && s.m.Head(p) > CHUNK_HDR_SZ && s.m.Size(p) == s.H[p].n && next % 16 == 0 && s.H[p].n >= MINSIZE
  {
    hide Links, Marks, Slots;
    var next := p + s.H[p].n;
    assert Placed(s.H, s.base, s.top, p) && TagAt(s.m, s.H, s.top, p);
    HeadDecodes(s.m, p, s.H[p].n);
    PageMultiple(s.sbrkBase + s.systemMem, s.top);
    HeadDecodes(s.m, s.top, s.sbrkBase + s.systemMem - s.top);
    if next in s.H {
      assert Placed(s.H, s.base, s.top, next);
      HeadDecodes(s.m, next, s.H[next].n);
    }
  }

  // ---------------------------------------------------------------- malloc_consolidate

  /** Put the owned chunk into the unsorted list, in the store order of malloc_consolidate. */
  method UnsortedNewChunk(av: MallocState, p: int, size: int)
    requires av.Ok() && p in av.H && av.H[p].n == size && Placeable(av.m, av.H, p, UNSORTED)
    modifies av`m, av`H
    ensures av.Ok() && p in av.H && InBin(av.H, p, UNSORTED) && av.H == old(av.H)[p := av.H[p]]
    ensures LiveOf(av.H) == old(LiveOf(av.H)) && Kept(old(av.m), av.m, LiveOf(av.H)) && SameListed(old(av.H), av.H)
    ensures av.m.Fd(Hdr(UNSORTED)) == p && av.H[p].n == size
  {
    hide Sound, Kept, LiveOf, FrontRank;
    ghost var s0 := av.S();
    UnsortedClear(s0, p);
    var unsortedBin := Hdr(UNSORTED);
    var firstUnsorted := av.m.Fd(unsortedBin);
    av.m := av.m.SetFd(unsortedBin, p).SetBk(firstUnsorted, p);
    if !InSmallRange(size) {
      av.m := av.m.SetFdNext(p, NULL).SetBkNext(p, NULL);
    }
    av.m := av.m.SetHead(p, size + 1).SetBk(p, unsortedBin).SetFd(p, firstUnsorted).SetPrevSize(p + size, size);
    UnsortedSound(s0, av.m, p);
    av.H := PlacedHeap(s0, p, UNSORTED);
    assert av.S() == s0.(m := av.m, H := av.H);
  }

  lemma UnsortedClear(s: State, p: int)
    requires Sound(s) && p in s.H && Placeable(s.m, s.H, p, UNSORTED)
    ensures p >= HEAP_MIN && s.H[p].n >= 0
  {
    PlaceFacts(s.m, s.H, s.base, s.top, p, UNSORTED);
    assert Placed(s.H, s.base, s.top, p);
  }

  lemma UnsortedSound(s: State, m': Mem, p: int)
    requires Sound(s) && p in s.H && Placeable(s.m, s.H, p, UNSORTED)
    requires var n, u, f := s.H[p].n, Hdr(UNSORTED), s.m.Fd(Hdr(UNSORTED));
             var m1 := s.m.SetFd(u, p).SetBk(f, p);
             m' == (if InSmallRange(n) then m1 else m1.SetFdNext(p, NULL).SetBkNext(p, NULL))
                     .SetHead(p, n + 1).SetBk(p, u).SetFd(p, f).SetPrevSize(p + n, n)
    ensures var H' := PlacedHeap(s, p, UNSORTED);
            Sound(s.(m := m', H := H')) && Kept(s.m, m', LiveOf(s.H)) && LiveOf(H') == LiveOf(s.H)
  {
    hide Sound, Placing;
    CoreIn(s);
    UnsortedStores(s.m, m', s.H, s.base, s.top, p);
    PlacedSound(s, m', p, UNSORTED);
  }

  lemma UnsortedStores(m: Mem, m': Mem, H: Heap, base: int, top: int, p: int)
    requires Core(m, H, base, top) && p in H && Placeable(m, H, p, UNSORTED)
    requires var n, u, f := H[p].n, Hdr(UNSORTED), m.Fd(Hdr(UNSORTED));
             var m1 := m.SetFd(u, p).SetBk(f, p);
             m' == (if InSmallRange(n) then m1 else m1.SetFdNext(p, NULL).SetBkNext(p, NULL))
                     .SetHead(p, n + 1).SetBk(p, u).SetFd(p, f).SetPrevSize(p + n, n)
    ensures Placing(m, m', p, H[p].n, Hdr(UNSORTED), m.Fd(Hdr(UNSORTED)))
  {
    PlaceFacts(m, H, base, top, p, UNSORTED);
  }

  /** The forward half of the consolidation of one fastbin chunk. */
  method ConsolidateForward(av: MallocState, p: int, size0: int, nextchunk: int, nextsize: int)
    requires Creatable(av.S(), p, nextchunk) && size0 == av.H[p].n && nextsize == av.m.Size(nextchunk)
    modifies av`m, av`H, av`top
    ensures av.Ok() && NoRaw(av.H) && SameListed(old(av.H), av.H)
    ensures LiveOf(av.H) == old(LiveOf(av.H)) && Kept(old(av.m), av.m, LiveOf(av.H))
    ensures av.top <= old(av.top) && SortedSub(old(av.H), av.H) && SameFences(old(av.H), av.H)
    ensures if nextchunk == old(av.top) then av.top == p
            else av.top == old(av.top) && InBin(av.H, p, UNSORTED) && av.m.Fd(Hdr(UNSORTED)) == p
                 && av.H[p].n == size0 + (if old(av.H)[nextchunk].st.Binned? then nextsize else 0)
  {
    hide Sound, Kept, LiveOf, SameListed, Put, Placeable;
    var size := size0;
    ghost var s0 := av.S();
    CreateFacts(s0, p, nextchunk);
    if nextchunk != av.top {
      var nextinuse := av.m.PrevInuse(nextchunk + nextsize);
      if !nextinuse {
        size := size + nextsize;
        UnlinkChunk(av, nextchunk);
        MergeSound(s0, av.S(), p, nextchunk);
        av.H := Joined(av.H, p, nextchunk);
      } else {
        ClearSound(s0, p, nextchunk);
        av.m := av.m.ClearPrevInuse(nextchunk);
      }
      ghost var s1 := av.S();
      UnsortedNewChunk(av, p, size);
      KeptTrans(s0.m, s1.m, av.m, LiveOf(s0.H));
      SameListedTrans(s0.H, s1.H, av.H);
    } else {
      size := size + nextsize;
      CreateAtTop(s0, p);
      av.m := av.m.SetHead(p, size + 1);
      av.top := p;
      av.H := Dropped(av.H, p);
    }
  }

  /** The size of the chunk that comes of joining the block with what lies on both sides. */
  lemma MergedIs(s0: State, s1: State, p0: int, p: int, size0: int, size: int)
    requires p0 in s0.H && size0 == s0.H[p0].n
    requires s1.top == s0.top && Creatable(s1, p, p0 + size0)
    requires p0 + size0 == s0.top || p0 + size0 in s0.H
    requires p0 + size0 in s0.H ==> p0 + size0 in s1.H && s1.H[p0 + size0] == s0.H[p0 + size0] && s1.m.Size(p0 + size0) == s0.m.Size(p0 + size0)
    requires var nextsize := s0.m.Size(p0 + size0);
             size == size0 + (if s0.m.PrevInuse(p0) then 0 else s0.m.PrevSize(p0))
                   + (if p0 + size0 == s0.top || s1.H[p0 + size0].st.Binned? then nextsize else 0)
    ensures size == MergedSize(s0, p0)
  {
    CreateFacts(s1, p, p0 + size0);
  }

  /** Where the chunk is once it has been merged on both sides. */
  lemma RefiledIs(s0: State, s1: State, s2: State, p0: int, p: int, size0: int, size: int)
    requires p0 in s0.H && size0 == s0.H[p0].n && s1.top == s0.top && Creatable(s1, p, p0 + size0) && p == MergedAt(s0, p0)
    requires p0 + size0 == s0.top || p0 + size0 in s0.H
    requires p0 + size0 in s0.H ==> p0 + size0 in s1.H && s1.H[p0 + size0] == s0.H[p0 + size0] && s1.m.Size(p0 + size0) == s0.m.Size(p0 + size0)
    requires size == size0 + (if s0.m.PrevInuse(p0) then 0 else s0.m.PrevSize(p0))
    requires if p0 + size0 == s0.top then s2.top == p
             else s2.top == s0.top && InBin(s2.H, p, UNSORTED) && s2.m.Fd(Hdr(UNSORTED)) == p
                  && s2.H[p].n == size + (if s1.H[p0 + size0].st.Binned? then s0.m.Size(p0 + size0) else 0)
    ensures Refiled(s0, s2, p0)
  {
    hide MergedSize, Creatable;
    if p0 + size0 != s0.top {
      MergedIs(s0, s1, p0, p, size0, s2.H[p].n);
    }
  }

  lemma ListedButTrans(H0: Heap, H1: Heap, H2: Heap, p: int)
    requires ListedBut(H0, H1, p) && SameListed(H1, H2)
    ensures ListedBut(H0, H2, p)
  {
    forall x, l ensures (InList(H2, x, l) <==> InList(H0, x, l) && x != p) && (InList(H2, x, l) ==> H2[x] == H0[x]) {
      assert InList(H1, x, l) <==> InList(H2, x, l);
    }
  }

  /** The chain a fastbin was detached into: its first chunk, its size class. */
  ghost predicate Chain(s: State, p: int, k: int) {
    && Sound(s) && NoRaw(s.H) && ChainHead(s.H, p)
    && forall q {:trigger InList(s.H, q, DETACHED)} :: InList(s.H, q, DETACHED) ==> s.H[q].n == 16 * (k + 2)
  }

  /** One round of malloc_consolidate's inner loop: the chunk `p` is merged with its unused
      neighbours and put into the unsorted list or top, and the next one is returned. */
  method ConsolidateChunk(av: MallocState, p0: int, k: int) returns (nextp: int)
    requires Chain(av.S(), p0, k) && p0 != NULL && 0 <= k < NFASTBINS
    modifies av`m, av`H, av`top
    ensures Chain(av.S(), nextp, k) && ListedBut(old(av.H), av.H, p0)
    ensures av.top <= old(av.top) && SortedSub(old(av.H), av.H) && SameFences(old(av.H), av.H)
    ensures LiveOf(av.H) == old(LiveOf(av.H)) && Kept(old(av.m), av.m, LiveOf(av.H))
    ensures p0 in old(av.H) && Refiled(old(av.S()), av.S(), p0)
  {
    hide Sound, Kept, LiveOf, SameListed, ListedBut, SortedSub, SameFences, Refiled, Creatable;
    ghost var s0 := av.S();
    ChainGuards(s0, p0, k);
    if (p0 + 16) % 16 != 0 {
      assert false; // malloc_consolidate(): unaligned fastbin chunk detected
    }
    if FastIndex(av.m.Size(p0)) != k {
      assert false; // malloc_consolidate(): invalid chunk size
    }
    nextp := Mask(p0 + 16, av.m.Fd(p0));
    var size := av.m.Size(p0);
    var nextchunk := p0 + size;
    var nextsize := av.m.Size(nextchunk);
    var p;
    p, size := MergeBackward(av, p0, size);
    ghost var s1 := av.S();
    TakenCreatable(s0, s1, p0, p, size);
    ConsolidateForward(av, p, size, nextchunk, nextsize);
    SameFencesTrans(s0.H, s1.H, av.H);
    RefiledIs(s0, s1, av.S(), p0, p, s0.H[p0].n, size);
    KeptTrans(s0.m, s1.m, av.m, LiveOf(s0.H));
    ListedButTrans(s0.H, s1.H, av.H, p0);
    SortedSubTrans(s0.H, s1.H, av.H);
    ChainFrame(s1.H, av.H, nextp);
    ChainSizes(s0, av.S(), p0, k);
  }

  lemma ChainGuards(s: State, p: int, k: int)
    requires Chain(s, p, k) && p != NULL && 0 <= k < NFASTBINS
    ensures InList(s.H, p, DETACHED) && Releasing(s, p) && (p + 16) % 16 == 0
    ensures s.m.Size(p) == s.H[p].n && FastIndex(s.m.Size(p)) == k
    ensures p + s.H[p].n in s.H || p + s.H[p].n == s.top
  {
    hide Links, Marks, Slots;
    BehindFacts(s, p);
    assert Placed(s.H, s.base, s.top, p);
  }

  lemma ChainSizes(s: State, s': State, p: int, k: int)
    requires Chain(s, p, k) && ListedBut(s.H, s'.H, p)
    ensures forall q {:trigger InList(s'.H, q, DETACHED)} :: InList(s'.H, q, DETACHED) ==> s'.H[q].n == 16 * (k + 2)
  {
    forall q | InList(s'.H, q, DETACHED) ensures s'.H[q].n == 16 * (k + 2) {
      assert InList(s.H, q, DETACHED);
    }
  }
}
