/** The exact-fit paths of `_int_malloc`: fastbins and small bins, with the stashing of further
    chunks of the same size in the thread cache. */
module ExactFit {
  import opened Sizes
  import opened Memory
  import opened Protect
  import opened Heap
  import opened RingProofs
  import opened LayoutProofs
  import opened Steps
  import opened ListingProofs
  import opened UnlinkProofs
  import opened Arena
  import opened Binmap
  import opened Free
  import opened Consolidate
  import opened FreeChunk
  import opened Unlink
  import opened Tcache
  import opened ListEntries

  /** Block `p` of at least nb bytes was handed out: it is aligned, it was not live before, it is less
      than MINSIZE larger than asked, and the other live blocks are what they were. */
  ghost predicate Granted(H: Heap, H': Heap, p: int, nb: int) {
    && p !in LiveOf(H) && p in LiveOf(H') && LiveOf(H') == LiveOf(H)[p := LiveOf(H')[p]]
    && nb <= LiveOf(H')[p] < nb + MINSIZE && p % 16 == 0
  }

  // ---------------------------------------------------------------- fastbins

  lemma FastPopSound(s: State, l: int)
    requires Sound(s) && Quiet(s.H) && 0 <= l < NFASTBINS && s.m.e(Cell(l)) != NULL
    ensures var p := s.m.e(Cell(l)); var m' := Mem(Put(s.m.e, Cell(l), Mask(p + 16, s.m.Fd(p))), s.m.o);
            && InList(s.H, p, l) && p % 16 == 0 && s.m.Size(p) == s.H[p].n == 16 * (l + 2)
            && var H' := s.H[p := Chunk(s.H[p].n, Live)];
            && Sound(s.(m := m', H := H')) && Quiet(H') && LiveOf(H') == LiveOf(s.H)[p := s.H[p].n]
            && p !in LiveOf(s.H) && Kept(s.m, m', LiveOf(s.H))
  {
    var p := s.m.e(Cell(l));
    var m' := Mem(Put(s.m.e, Cell(l), Mask(p + 16, s.m.Fd(p))), s.m.o);
    CoreLow(s.m, s.H, s.base, s.top);
    assert ListAt(s.m, s.H, l, Cell(l)) && InList(s.H, p, l) && SingleOk(s.H, p);
    ChunkSize(s, p);
    var H' := s.H[p := Chunk(s.H[p].n, Live)];
    assert Pointee(s.m, l, p + 16) == Mask(p + 16, s.m.Fd(p));
    GetStep(s.m, m', s.H, H', s.base, s.top, p, l, Cell(l));
    FastPopRest(s, l, p);
    TouchesKept(s.m, m', s.H, s.base, s.top, p, p, p, p);
    FreshKeeps(s, m');
  }

  lemma FastPopRest(s: State, l: int, p: int)
    requires Sound(s) && Quiet(s.H) && 0 <= l < NFASTBINS && InList(s.H, p, l)
    ensures var H' := s.H[p := Chunk(s.H[p].n, Live)];
            Marks(s.binmap, H') && Slots(s.slots, H') && Quiet(H') && LiveOf(H') == LiveOf(s.H)[p := s.H[p].n]
  {
    hide Core;
    var H' := s.H[p := Chunk(s.H[p].n, Live)];
    forall b, x | 2 <= b <= 126 && InBin(H', x, b) ensures Marked(s.binmap, b) {
      assert InBin(s.H, x, b);
    }
    forall x, k ensures InList(H', x, k) <==> InList(s.H, x, k) && x != p {}
    forall k | k >= NFASTBINS ensures Members(H', k) == Members(s.H, k) {
      forall x ensures x in Members(H', k) <==> x in Members(s.H, k) {
        assert InList(H', x, k) <==> InList(s.H, x, k) && x != p;
      }
    }
  }

  /** Pop the newest chunk of a non-empty fastbin (single-threaded branch). */
  method FastPop(av: MallocState, l: int) returns (victim: int)
    requires av.Valid() && 0 <= l < NFASTBINS && av.m.e(Cell(l)) != NULL
    modifies av`m, av`H
    ensures av.Valid() && InList(old(av.H), victim, l) && old(av.H)[victim].n == 16 * (l + 2) && victim % 16 == 0
    ensures av.H == old(av.H)[victim := Chunk(16 * (l + 2), Live)] && victim !in old(LiveOf(av.H))
    ensures LiveOf(av.H) == old(LiveOf(av.H))[victim := 16 * (l + 2)] && Kept(old(av.m), av.m, old(LiveOf(av.H)))
    ensures av.m.Size(victim) == 16 * (l + 2) && victim == old(av.m.e(Cell(l))) && LeavesFront(old(av.H), av.H, l, victim)
  {
    hide Sound, Kept, LiveOf, LeavesFront;
    ghost var s0 := av.S();
    FastPopSound(s0, l);
    victim := av.m.e(Cell(l));
    if (victim + 16) % 16 != 0 {
      assert false; // malloc(): unaligned fastbin chunk detected
    }
    av.m := Mem(Put(av.m.e, Cell(l), Mask(victim + 16, av.m.Fd(victim))), av.m.o);
    av.H := av.H[victim := Chunk(av.H[victim].n, Live)];
    ChunkSize(av.S(), victim);
    FastLeaves(s0, av.S(), l);
  }

  lemma FastLeaves(s: State, s1: State, l: int)
    requires Sound(s) && Sound(s1) && 0 <= l < NFASTBINS
    requires var p := s.m.e(Cell(l)); InList(s.H, p, l) && s1.H == s.H[p := Chunk(s.H[p].n, Live)]
    ensures LeavesFront(s.H, s1.H, l, s.m.e(Cell(l)))
  {
    hide LeavesFront, Lists;
    SoundLists(s);
    SoundLists(s1);
    FrontLeaves(s.m, s.H, s1.H, s.m.e(Cell(l)), l);
  }

  lemma QuietPut(H: Heap, H': Heap, p: int, t: int)
    requires Quiet(H) && p in H' && H' == H[p := H'[p]] && InList(H', p, TList(t)) && t >= 0
    ensures Quiet(H') && (FastEmpty(H, NFASTBINS) ==> FastEmpty(H', NFASTBINS))
  {
    forall q ensures !InList(H', q, DETACHED) {
      assert !InList(H, q, DETACHED);
    }
    if FastEmpty(H, NFASTBINS) {
      forall x, k | InList(H', x, k) ensures !(0 <= k < NFASTBINS) {
        assert x != p ==> InList(H, x, k);
      }
    }
  }

  /** How many of n further chunks go to bin t of the cache: as many as it has slots for. */
  function Took(stash: bool, slots: seq<int>, t: int, n: nat): (k: nat)
    ensures k <= n
  {
    if stash && 0 <= t < |slots| && slots[t] >= 0 then Min(slots[t], n) else 0
  }

  /** The chunks in `taken` have come to the front of bin t of the cache, in that order; its other bins are as
      they were. */
  ghost predicate Stashed(H: Heap, H': Heap, slots: seq<int>, slots': seq<int>, t: int, taken: seq<int>) {
    && slots' == (if 0 <= t < |slots| then slots[t := slots[t] - |taken|] else slots)
    && forall k {:trigger Entries(H', k)} :: k >= NFASTBINS ==> Entries(H', k) == if k == TList(t) then taken + Entries(H, k) else Entries(H, k)
  }

  /** The first k entries of fastbin l have gone to bin t of the cache, the newest first, so that they lie there in
      the reverse order. */
  ghost predicate FastMoved(H: Heap, H': Heap, slots: seq<int>, slots': seq<int>, l: int, t: int, k: nat) {
    && k <= |Entries(H, l)| && Stashed(H, H', slots, slots', t, Backwards(Entries(H, l)[..k]))
    && forall j {:trigger Entries(H', j)} :: j < NFASTBINS ==> Entries(H', j) == if j == l then Entries(H, l)[k..] else Entries(H, j)
  }

  lemma FastMovedMore(H0: Heap, H1: Heap, H2: Heap, H3: Heap, slots: seq<int>, slots': seq<int>, l: int, t: int, k: nat, p: int)
    requires FastMoved(H0, H1, slots, slots', l, t, k) && 0 <= l < NFASTBINS && 0 <= t < |slots|
    requires LeavesFront(H1, H2, l, p) && EntersFront(H2, H3, TList(t), p)
    ensures FastMoved(H0, H3, slots, slots'[t := slots'[t] - 1], l, t, k + 1)
  {
    hide Entries, LeavesFront, EntersFront;
    var E := Entries(H0, l);
    FastMovedAt(H1, H2, H3, l, t, p, l);
    assert k < |E| && E[k] == p && Entries(H3, l) == E[k + 1..];
    assert Backwards(E[..k + 1]) == [p] + Backwards(E[..k]);
    forall j ensures Entries(H3, j) == if j == l then E[k + 1..] else if j == TList(t) then Backwards(E[..k + 1]) + Entries(H0, j) else Entries(H0, j) {
      FastMovedAt(H1, H2, H3, l, t, p, j);
      assert [p] + (Backwards(E[..k]) + Entries(H0, j)) == Backwards(E[..k + 1]) + Entries(H0, j);
    }
  }

  lemma FastMovedAt(H1: Heap, H2: Heap, H3: Heap, l: int, t: int, p: int, j: int)
    requires LeavesFront(H1, H2, l, p) && EntersFront(H2, H3, TList(t), p) && l < NFASTBINS && t >= 0
    ensures j == l ==> Entries(H1, l) == [p] + Entries(H3, l)
    ensures j == TList(t) ==> Entries(H3, j) == [p] + Entries(H1, j)
    ensures j != l && j != TList(t) ==> Entries(H3, j) == Entries(H1, j)
  {
    hide Entries;
    assert Entries(H3, j) == Entries(H3, j) && Entries(H1, j) == Entries(H1, j);
  }

  /** A chunk went from one list to another, by way of the client's side. */
  lemma MovedOver(s0: State, s1: State, s2: State, s3: State, p: int)
    requires LiveOf(s1.H) == LiveOf(s0.H) && Kept(s0.m, s1.m, LiveOf(s0.H)) && p !in LiveOf(s1.H) && p in LiveOf(s2.H)
    requires LiveOf(s2.H) == LiveOf(s1.H)[p := LiveOf(s2.H)[p]] && Kept(s1.m, s2.m, LiveOf(s1.H))
    requires LiveOf(s3.H) == LiveOf(s2.H) - {p} && Kept(s2.m, s3.m, LiveOf(s3.H))
    ensures LiveOf(s3.H) == LiveOf(s0.H) && Kept(s0.m, s3.m, LiveOf(s0.H))
  {
    hide LiveOf, Kept;
    var L1, L2 := LiveOf(s1.H), LiveOf(s2.H);
    assert LiveOf(s3.H) == L1 by {
      forall x | x in L1 ensures x in LiveOf(s3.H) && LiveOf(s3.H)[x] == L1[x] {
        assert x != p && x in L2 && L2[x] == L1[x];
      }
    }
    KeptTrans(s1.m, s2.m, s3.m, LiveOf(s0.H));
    KeptTrans(s0.m, s1.m, s3.m, LiveOf(s0.H));
  }

  /** The first chunk of the fastbin goes to the thread-cache bin. */
  method StashOne(av: MallocState, ghost s0: State, l: int, t: int) returns (ghost H2: Heap, ghost p: int)
    requires av.Valid() && 0 <= l <= 6 && t == l && av.m.e(Cell(l)) != NULL && |av.numSlots| == TCACHE_MAX_BINS && av.numSlots[t] > 0
    requires LiveOf(av.H) == LiveOf(s0.H) && Kept(s0.m, av.m, LiveOf(s0.H))
    modifies av`m, av`H, av`numSlots
    ensures av.Valid() && LiveOf(av.H) == LiveOf(s0.H) && Kept(s0.m, av.m, LiveOf(s0.H))
    ensures av.numSlots == old(av.numSlots)[t := old(av.numSlots)[t] - 1]
    ensures LeavesFront(old(av.H), H2, l, p) && EntersFront(H2, av.H, TList(t), p)
  {
    hide Sound, Kept, Entries, EntersFront, LeavesFront, FastEmpty;
    ghost var s1 := av.S();
    var tcVictim := FastPop(av, l);
    ghost var s2 := av.S();
    if (av.m.Size(tcVictim) - MINSIZE) / 16 != t {
      assert false; // malloc(): chunk size mismatch in fastbin
    }
    TcachePut(av, tcVictim, t);
    QuietPut(s2.H, av.H, tcVictim, t);
    MovedOver(s0, s1, s2, av.S(), tcVictim);
    H2, p := s2.H, tcVictim;
  }

  /** Fill the thread-cache bin from the rest of the fastbin. */
  method StashFast(av: MallocState, l: int, nb: int, ghost keep: int)
    requires av.Valid() && 0 <= l <= 6 && nb == 16 * (l + 2) && keep in LiveOf(av.H) && |av.numSlots| > 0
    modifies av`m, av`H, av`numSlots
    ensures av.Valid() && LiveOf(av.H) == old(LiveOf(av.H)) && Kept(old(av.m), av.m, LiveOf(av.H))
    ensures |av.numSlots| == |old(av.numSlots)|
    ensures FastMoved(old(av.H), av.H, old(av.numSlots), av.numSlots, l, l, Took(true, old(av.numSlots), l, |Entries(old(av.H), l)|))
  {
    hide Sound, Kept, LiveOf, Entries, EntersFront, LeavesFront, FastMoved, FastEmpty;
    ghost var s0 := av.S();
    ghost var k: nat := 0;
    KeptRefl(av.m, LiveOf(av.H));
    SlotsLength(s0);
    FastMovedNone(s0, l);
    var t := (nb - MINSIZE) / 16;
    while av.numSlots[t] != 0 && av.m.e(Cell(l)) != NULL
      invariant av.Valid() && LiveOf(av.H) == LiveOf(s0.H) && Kept(s0.m, av.m, LiveOf(av.H))
      invariant |av.numSlots| == TCACHE_MAX_BINS && av.numSlots[t] == s0.slots[t] - k >= 0
      invariant FastMoved(s0.H, av.H, s0.slots, av.numSlots, l, t, k)
      decreases av.numSlots[t]
    {
      ghost var s1 := av.S();
      ghost var H2, p := StashOne(av, s0, l, t);
      FastMovedMore(s0.H, s1.H, H2, av.H, s0.slots, s1.slots, l, t, k, p);
      SlotsLength(av.S());
      k := k + 1;
    }
    FastMovedAll(s0, av.S(), l, t, k);
  }

  lemma FastMovedNone(s: State, l: int)
    requires Sound(s) && 0 <= l < NFASTBINS
    ensures FastMoved(s.H, s.H, s.slots, s.slots, l, l, 0)
  {
    hide Sound, Entries;
    assert Entries(s.H, l)[0..] == Entries(s.H, l);
    forall k ensures Entries(s.H, k) == Backwards(Entries(s.H, l)[..0]) + Entries(s.H, k) {}
  }

  /** When the loop is over there are no more slots or no more chunks. */
  lemma FastMovedAll(s0: State, s: State, l: int, t: int, k: nat)
    requires Sound(s) && 0 <= l < NFASTBINS && FastMoved(s0.H, s.H, s0.slots, s.slots, l, t, k) && 0 <= t < |s0.slots|
    requires s.slots[t] == s0.slots[t] - k >= 0 && (s.slots[t] == 0 || s.m.e(Cell(l)) == NULL)
    ensures k == Took(true, s0.slots, t, |Entries(s0.H, l)|)
  {
    hide Sound, Entries;
    SoundLists(s);
    HeadFirst(s.m, s.H, l);
    assert Entries(s.H, l) == Entries(s0.H, l)[k..];
  }

  lemma SlotsLength(s: State)
    requires Sound(s)
    ensures |s.slots| == 0 || |s.slots| == TCACHE_MAX_BINS
    ensures forall t {:trigger s.slots[t]} :: 0 <= t < |s.slots| ==> s.slots[t] >= 0
  {}

  /** The newest chunk of fastbin l was taken, and as many of the rest moved to the cache as there is room for. */
  ghost predicate FastServed(H: Heap, H': Heap, slots: seq<int>, slots': seq<int>, l: int, p: int, stash: bool) {
    exists H1 {:trigger LeavesFront(H, H1, l, p)} :: LeavesFront(H, H1, l, p)
      && FastMoved(H1, H', slots, slots', l, l, Took(stash, slots, l, |Entries(H1, l)|))
  }

  /** The fastbin branch of `_int_malloc`: the newest chunk of the fastbin, or NULL when that is empty. */
  method MallocFast(av: MallocState, nb: int) returns (p: int)
    requires av.Valid() && nb % 16 == 0 && MINSIZE <= nb <= MAX_FAST
    modifies av`m, av`H, av`numSlots
    ensures av.Valid() && |av.numSlots| == |old(av.numSlots)|
    ensures p == old(av.m.e(Cell(FastIndex(nb)))) && (p == NULL ==> av.S() == old(av.S()))
    ensures p != NULL ==> Granted(old(av.H), av.H, p, nb) && LiveOf(av.H)[p] == nb && Kept(old(av.m), av.m, old(LiveOf(av.H))) && p in old(av.H)
    ensures p != NULL ==> FastServed(old(av.H), av.H, old(av.numSlots), av.numSlots, FastIndex(nb), p, FastIndex(nb) < av.tcacheSmallBins)
  {
    hide Sound, Kept, Entries, LeavesFront, FastMoved, FastEmpty;
    ghost var s0 := av.S();
    var idx := FastIndex(nb);
    if av.m.e(Cell(idx)) == NULL {
      return NULL;
    }
    p := FastPop(av, idx);
    ghost var s1 := av.S();
    if FastIndex(av.m.Size(p)) != idx {
      assert false; // malloc(): memory corruption (fast)
    }
    ChunkSize(s1, p);
    FastMovedNone(s1, idx);
    SlotsLength(s1);
    if |av.numSlots| > 0 && (nb - MINSIZE) / 16 < av.tcacheSmallBins {
      StashFast(av, idx, nb, p);
      KeptSub(s1.m, av.m, LiveOf(av.H), LiveOf(s0.H));
      KeptTrans(s0.m, s1.m, av.m, LiveOf(s0.H));
    }
  }

  // ---------------------------------------------------------------- small bins

  /** The last chunk of a bin, and the check made before it is taken off. */
  lemma LastFacts(s: State, b: int)
    requires Sound(s) && 1 <= b <= 126 && s.m.Bk(Hdr(b)) != Hdr(b)
    ensures var p := s.m.Bk(Hdr(b));
            && InBin(s.H, p, b) && s.m.Fd(p) == Hdr(b) && s.m.Fd(s.m.Bk(p)) == p && p % 16 == 0
            && s.m.Size(p) == s.H[p].n && s.H[p].n >= MINSIZE && p + s.H[p].n in s.H
            && s.m.Head(p) == s.H[p].n + 1 && s.m.Head(p + s.H[p].n) == s.H[p + s.H[p].n].n
            && (b >= 2 && b < 64 ==> s.H[p].n == 16 * b) && !s.H[p + s.H[p].n].st.Raw?
            && forall q {:trigger InBin(s.H, q, b)} :: InBin(s.H, q, b) ==> s.H[q].st.r <= s.H[p].st.r
  {
    CoreLow(s.m, s.H, s.base, s.top);
    var p := s.m.Bk(Hdr(b));
    assert RingAt(s.m, s.H, b, Hdr(b)) && InBin(s.H, p, b);
    assert RingAt(s.m, s.H, b, p) && BinOk(s.H, p) && TagAt(s.m, s.H, s.top, p);
    assert !InBin(s.H, Hdr(b), b);
    ChunkSize(s, p);
    BinIndexRange(s.H[p].n);
  }

  /** Taking the last chunk off an unsorted or small bin. */
  lemma RemoveLastSound(s: State, b: int)
    requires Sound(s) && 1 <= b < 64 && s.m.Bk(Hdr(b)) != Hdr(b)
    ensures var p := s.m.Bk(Hdr(b)); var m1 := s.m.SetBk(Hdr(b), s.m.Bk(p)).SetFd(s.m.Bk(p), Hdr(b));
            && p in s.H && var H1 := s.H[p := Chunk(s.H[p].n, Raw)];
            && Sound(s.(m := m1, H := H1)) && LiveOf(H1) == LiveOf(s.H) && Kept(s.m, m1, LiveOf(s.H))
            && TagWordsSame(s.m, m1, s.H) && (!InSmallRange(s.H[p].n) ==> m1.FdNext(p) == NULL && m1.BkNext(p) == NULL)
  {
    LastFacts(s, b);
    var p := s.m.Bk(Hdr(b));
    assert NextSizeAt(s.m, s.H, b, p) && BinOk(s.H, p);
    BinIndexRange(s.H[p].n);
    UnlinkSound(s, p);
    BypassedWords(s.m, s.H, s.base, s.top, p);
  }

  /** An owned chunk with a proper head becomes live once the P bit behind it is set. */
  lemma GiveSound(s: State, p: int)
    requires Sound(s) && p in s.H && s.H[p].st.Raw? && s.H[p].n >= MINSIZE && OnlyRaw(s.H, p)
    requires s.m.Head(p) == s.H[p].n + 1
    requires var q := p + s.H[p].n; q in s.H && s.m.Head(q) == s.H[q].n
    ensures var q := p + s.H[p].n; var m' := s.m.SetPrevInuse(q);
            var H' := s.H[p := Chunk(s.H[p].n, Live)];
            && Sound(s.(m := m', H := H')) && NoRaw(H') && LiveOf(H') == LiveOf(s.H)[p := s.H[p].n]
            && p !in LiveOf(s.H) && Kept(s.m, m', LiveOf(s.H)) && SameListed(s.H, H')
            && m'.Head(q) == s.H[q].n + 1 && (forall a :: a != q ==> m'.o(a) == s.m.o(a)) && m'.e == s.m.e && m'.PrevInuse(p)
  {
    hide Links, Slots;
    var q := p + s.H[p].n;
    var m', H' := s.m.SetPrevInuse(q), s.H[p := Chunk(s.H[p].n, Live)];
    assert Placed(s.H, s.base, s.top, p) && Placed(s.H, s.base, s.top, q) && RawBefore(s.H, q);
    HeadDecodes(s.m, q, s.H[q].n);
    HeadDecodes(s.m, p, s.H[p].n);
    BoundaryOutside(s.H, s.base, s.top, q);
    LooseStores(s.m, m', s.H, s.base, s.top, {q});
    GiveStep(m', s.H, s.base, s.top, p);
    RestFrame(s.H, H', s.binmap, s.slots);
    TouchesKept(s.m, m', s.H, s.base, s.top, p, p, p, p);
    FreshKeeps(s, m');
  }

  /** Memory enters the invariant only through its words. */
  lemma WordsSound(s: State, m': Mem)
    requires Sound(s) && (forall a {:trigger m'.e(a)} {:trigger m'.o(a)} :: m'.e(a) == s.m.e(a) && m'.o(a) == s.m.o(a))
    ensures Sound(s.(m := m')) && Kept(s.m, m', LiveOf(s.H))
  {
    LooseStores(s.m, m', s.H, s.base, s.top, {});
  }

  /** Taking the last chunk of a small bin for the client, in the store order of `_int_malloc`. */
  lemma TakeLastSound(s: State, b: int)
    requires Sound(s) && Quiet(s.H) && 2 <= b < 64 && s.m.Bk(Hdr(b)) != Hdr(b)
    ensures var p := s.m.Bk(Hdr(b)); var n := 16 * b;
            && p in s.H && s.H[p].n == n && p % 16 == 0 && s.m.Fd(s.m.Bk(p)) == p && p !in LiveOf(s.H)
            && var m' := s.m.SetPrevInuse(p + n).SetBk(Hdr(b), s.m.Bk(p)).SetFd(s.m.Bk(p), Hdr(b));
               var H' := s.H[p := Chunk(n, Live)];
            && Sound(s.(m := m', H := H')) && Quiet(H') && LiveOf(H') == LiveOf(s.H)[p := n] && Kept(s.m, m', LiveOf(s.H)) && m'.PrevInuse(p)
  {
    hide Sound, Kept, LiveOf, Put, Mem.SetPrevInuse;
    LastFacts(s, b);
    RemoveLastSound(s, b);
    var p, n := s.m.Bk(Hdr(b)), 16 * b;
    var s1 := s.(m := s.m.SetBk(Hdr(b), s.m.Bk(p)).SetFd(s.m.Bk(p), Hdr(b)), H := s.H[p := Chunk(n, Raw)]);
    assert OnlyRaw(s1.H, p);
    GiveSound(s1, p);
    var s2 := s1.(m := s1.m.SetPrevInuse(p + n), H := s1.H[p := Chunk(n, Live)]);
    var m' := s.m.SetPrevInuse(p + n).SetBk(Hdr(b), s.m.Bk(p)).SetFd(s.m.Bk(p), Hdr(b));
    TakeLastWords(s, b);
    WordsSound(s2, m');
    KeptTrans(s.m, s1.m, s2.m, LiveOf(s.H));
    LiveSub(s2.m, m', s.H, p, n, s2.H);
    KeptTrans(s.m, s2.m, m', LiveOf(s.H));
    assert s2.H == s.H[p := Chunk(n, Live)];
    QuietTake(s.H, s2.H, p);
  }

  lemma LiveSub(m: Mem, m': Mem, H: Heap, p: int, n: int, H': Heap)
    requires Kept(m, m', LiveOf(H')) && LiveOf(H') == LiveOf(H)[p := n] && p !in LiveOf(H)
    ensures Kept(m, m', LiveOf(H))
  {
    KeptSub(m, m', LiveOf(H'), LiveOf(H));
  }

  lemma TakeLastWords(s: State, b: int)
    requires Sound(s) && 2 <= b < 64 && s.m.Bk(Hdr(b)) != Hdr(b) && s.m.Bk(Hdr(b)) in s.H
    ensures var p := s.m.Bk(Hdr(b)); var q := p + s.H[p].n;
            var m1 := s.m.SetPrevInuse(q).SetBk(Hdr(b), s.m.Bk(p)).SetFd(s.m.Bk(p), Hdr(b));
            var m2 := s.m.SetBk(Hdr(b), s.m.Bk(p)).SetFd(s.m.Bk(p), Hdr(b)).SetPrevInuse(q);
            forall a {:trigger m1.e(a)} {:trigger m1.o(a)} :: m1.e(a) == m2.e(a) && m1.o(a) == m2.o(a)
  {
    LastFacts(s, b);
    ChunkSize(s, s.m.Bk(Hdr(b)));
  }

  lemma QuietTake(H: Heap, H': Heap, p: int)
    requires Quiet(H) && p in H && H' == H[p := Chunk(H[p].n, Live)]
    ensures Quiet(H') && (FastEmpty(H, NFASTBINS) ==> FastEmpty(H', NFASTBINS))
  {
    forall q ensures !InList(H', q, DETACHED) {
      assert !InList(H, q, DETACHED);
    }
    if FastEmpty(H, NFASTBINS) {
      forall x, k | InList(H', x, k) ensures !(0 <= k < NFASTBINS) {
        assert InList(H, x, k);
      }
    }
  }

  /** Take the last chunk of a small bin. */
  method TakeLast(av: MallocState, b: int) returns (victim: int)
    requires av.Valid() && 2 <= b < 64 && av.m.Bk(Hdr(b)) != Hdr(b)
    modifies av`m, av`H
    ensures av.Valid() && victim !in old(LiveOf(av.H)) && victim % 16 == 0 && victim in av.H && av.H[victim] == Chunk(16 * b, Live)
    ensures LiveOf(av.H) == old(LiveOf(av.H))[victim := 16 * b] && Kept(old(av.m), av.m, old(LiveOf(av.H)))
    ensures victim == old(av.m.Bk(Hdr(b))) && av.m.PrevInuse(victim)
    ensures OldestGone(old(av.H), av.H, b, victim)
  {
    hide Sound, Kept, LiveOf, Put, Mem.SetPrevInuse, OldestGone, FastEmpty;
    ghost var s := av.S();
    TakeLastSound(av.S(), b);
    victim := av.m.Bk(Hdr(b));
    var bck := av.m.Bk(victim);
    if av.m.Fd(bck) != victim {
      assert false; // malloc(): smallbin double linked list corrupted
    }
    av.m := av.m.SetPrevInuse(victim + 16 * b);
    av.m := av.m.SetBk(Hdr(b), bck);
    av.m := av.m.SetFd(bck, Hdr(b));
    av.H := av.H[victim := Chunk(16 * b, Live)];
    QuietTake(s.H, av.H, victim);
    OldestLeaves(s, av.S(), b);
  }

  /** The last chunk of bin b, `p`, is gone from it, and no list has changed. */
  ghost predicate OldestGone(H: Heap, H': Heap, b: int, p: int) {
    && BinEntries(H, b) == BinEntries(H', b) + [p]
    && forall k {:trigger Entries(H', k)} :: Entries(H', k) == Entries(H, k)
  }

  lemma OldestLeaves(s: State, s1: State, b: int)
    requires Sound(s) && Sound(s1) && 2 <= b < 64 && s.m.Bk(Hdr(b)) != Hdr(b) && s1.H == s.H[s.m.Bk(Hdr(b)) := Chunk(16 * b, Live)]
    ensures OldestGone(s.H, s1.H, b, s.m.Bk(Hdr(b)))
  {
    hide Sound, BinEntries, Entries;
    LastFacts(s, b);
    SoundBins(s);
    SoundBins(s1);
    SoundLists(s);
    SoundLists(s1);
    LastLeaves(s.H, s1.H, b, s.m.Bk(Hdr(b)));
    forall k ensures Entries(s1.H, k) == Entries(s.H, k) {
      EntriesSame(s.H, s1.H, k);
    }
  }

  /** The last k chunks of small bin b have gone to bin t of the cache, the oldest first, so that they lie there in
      the order of the bin. */
  ghost predicate SmallMoved(H: Heap, H': Heap, slots: seq<int>, slots': seq<int>, b: int, t: int, k: nat) {
    var B := BinEntries(H, b);
    && k <= |B| && BinEntries(H', b) == B[..|B| - k] && Stashed(H, H', slots, slots', t, B[|B| - k..])
    && forall j {:trigger Entries(H', j)} :: j < NFASTBINS ==> Entries(H', j) == Entries(H, j)
  }

  lemma SmallMovedNone(s: State, b: int, t: int)
    ensures SmallMoved(s.H, s.H, s.slots, s.slots, b, t, 0)
  {
    hide Entries, BinEntries;
    var B := BinEntries(s.H, b);
    assert B[..|B|] == B;
    forall k ensures Entries(s.H, k) == B[|B|..] + Entries(s.H, k) {}
  }

  lemma SmallMovedMore(H0: Heap, H1: Heap, H2: Heap, H3: Heap, slots: seq<int>, slots': seq<int>, b: int, t: int, k: nat, p: int)
    requires SmallMoved(H0, H1, slots, slots', b, t, k) && 0 <= t < |slots|
    requires OldestGone(H1, H2, b, p)
    requires EntersFront(H2, H3, TList(t), p) && BinEntries(H3, b) == BinEntries(H2, b)
    ensures SmallMoved(H0, H3, slots, slots'[t := slots'[t] - 1], b, t, k + 1)
  {
    hide Entries, BinEntries, EntersFront;
    var B := BinEntries(H0, b);
    assert k < |B| && B[|B| - k - 1] == p;
    assert BinEntries(H3, b) == B[..|B| - k - 1];
    assert B[|B| - k - 1..] == [p] + B[|B| - k..];
    forall j ensures Entries(H3, j) == if j == TList(t) then B[|B| - k - 1..] + Entries(H0, j) else Entries(H0, j) {
      EnteredAt(H2, H3, TList(t), p, j);
      assert Entries(H2, j) == Entries(H1, j) && Entries(H1, j) == Entries(H1, j);
      assert [p] + (B[|B| - k..] + Entries(H0, j)) == B[|B| - k - 1..] + Entries(H0, j);
    }
  }

  lemma EnteredAt(H: Heap, H': Heap, l: int, p: int, j: int)
    requires EntersFront(H, H', l, p)
    ensures Entries(H', j) == if j == l then [p] + Entries(H, j) else Entries(H, j)
  {
    hide Entries;
  }

  /** When the loop is over there are no more slots or no more chunks. */
  lemma SmallMovedAll(s0: State, s: State, b: int, t: int, k: nat)
    requires Sound(s) && 2 <= b < 64 && SmallMoved(s0.H, s.H, s0.slots, s.slots, b, t, k) && 0 <= t < |s0.slots|
    requires s.slots[t] == s0.slots[t] - k >= 0 && (s.slots[t] == 0 || s.m.Bk(Hdr(b)) == Hdr(b))
    ensures k == Took(true, s0.slots, t, |BinEntries(s0.H, b)|)
  {
    hide Sound, Entries, BinEntries;
    SoundBins(s);
    BinSpell(s.H, b);
    if s.m.Bk(Hdr(b)) == Hdr(b) {
      NoLast(s, b);
    }
  }

  lemma NoLast(s: State, b: int)
    requires Sound(s) && 1 <= b <= 126 && s.m.Bk(Hdr(b)) == Hdr(b)
    ensures BinEntries(s.H, b) == []
  {
    hide BinEntries;
    CoreLow(s.m, s.H, s.base, s.top);
    assert RingAt(s.m, s.H, b, Hdr(b)) && !InBin(s.H, Hdr(b), b);
    SoundBins(s);
    BinSpell(s.H, b);
    assert BinSet(s.H, b) == {};
  }

  lemma CachedBinSame(s: State, s1: State, b: int, p: int, t: int)
    requires Sound(s) && Sound(s1) && p in s.H && s.H[p].st.Live? && p in s1.H && s1.H == s.H[p := s1.H[p]] && InList(s1.H, p, TList(t))
    ensures BinEntries(s1.H, b) == BinEntries(s.H, b)
  {
    SoundBins(s);
    SoundBins(s1);
    BinSame(s.H, s1.H, b);
  }

  /** Fill the thread-cache bin from the rest of the small bin. */
  method StashSmall(av: MallocState, b: int)
    requires av.Valid() && 2 <= b < 64 && |av.numSlots| > 0
    modifies av`m, av`H, av`numSlots
    ensures av.Valid() && LiveOf(av.H) == old(LiveOf(av.H)) && Kept(old(av.m), av.m, LiveOf(av.H))
    ensures |av.numSlots| == |old(av.numSlots)|
    ensures SmallMoved(old(av.H), av.H, old(av.numSlots), av.numSlots, b, b - 2, Took(true, old(av.numSlots), b - 2, |BinEntries(old(av.H), b)|))
  {
    hide Sound, Kept, Entries, BinEntries, EntersFront, SmallMoved, OldestGone, FastEmpty;
    ghost var s0 := av.S();
    ghost var k: nat := 0;
    KeptRefl(av.m, LiveOf(av.H));
    SlotsLength(s0);
    SmallMovedNone(s0, b, b - 2);
    var t := (16 * b - MINSIZE) / 16;
    while av.numSlots[t] != 0 && av.m.Bk(Hdr(b)) != Hdr(b)
      invariant av.Valid() && LiveOf(av.H) == LiveOf(s0.H) && Kept(s0.m, av.m, LiveOf(av.H))
      invariant |av.numSlots| == TCACHE_MAX_BINS && av.numSlots[t] == s0.slots[t] - k >= 0
      invariant SmallMoved(s0.H, av.H, s0.slots, av.numSlots, b, t, k)
      decreases av.numSlots[t]
    {
      ghost var s1 := av.S();
      var tcVictim := TakeLast(av, b);
      ghost var s2 := av.S();
      TcachePut(av, tcVictim, t);
      SlotsLength(av.S());
      QuietPut(s2.H, av.H, tcVictim, t);
      MovedOver(s0, s1, s2, av.S(), tcVictim);
      CachedBinSame(s2, av.S(), b, tcVictim, t);
      SmallMovedMore(s0.H, s1.H, s2.H, av.H, s0.slots, s1.slots, b, t, k, tcVictim);
      k := k + 1;
    }
    SmallMovedAll(s0, av.S(), b, t, k);
  }

  /** The oldest chunk of small bin b was taken, and as many of the rest moved to the cache as there is room for. */
  ghost predicate SmallServed(H: Heap, H': Heap, slots: seq<int>, slots': seq<int>, b: int, p: int, stash: bool) {
    exists H1 {:trigger OldestGone(H, H1, b, p)} :: OldestGone(H, H1, b, p)
      && SmallMoved(H1, H', slots, slots', b, b - 2, Took(stash, slots, b - 2, |BinEntries(H1, b)|))
  }

  /** The small-bin branch of `_int_malloc`: the oldest chunk of the bin, or NULL when that is empty. */
  method MallocSmall(av: MallocState, nb: int) returns (p: int)
    requires av.Valid() && nb % 16 == 0 && nb >= MINSIZE && InSmallRange(nb)
    modifies av`m, av`H, av`numSlots
    ensures av.Valid() && |av.numSlots| == |old(av.numSlots)|
    ensures var last := old(av.m.Bk(Hdr(nb / 16))); p == if last == Hdr(nb / 16) then NULL else last
    ensures (p == NULL ==> av.S() == old(av.S()) && av.m.Bk(Hdr(nb / 16)) == Hdr(nb / 16)) && (p != NULL ==> InBin(old(av.H), p, nb / 16))
    ensures p != NULL ==> Granted(old(av.H), av.H, p, nb) && LiveOf(av.H)[p] == nb && Kept(old(av.m), av.m, old(LiveOf(av.H)))
    ensures p != NULL ==> SmallServed(old(av.H), av.H, old(av.numSlots), av.numSlots, nb / 16, p, nb / 16 - 2 < av.tcacheSmallBins)
  {
    hide Sound, Kept, Entries, BinEntries, SmallMoved, OldestGone, FastEmpty;
    ghost var s0 := av.S();
    var idx := nb / 16;
    if av.m.Bk(Hdr(idx)) == Hdr(idx) {
      return NULL;
    }
    LastFacts(s0, idx);
    p := TakeLast(av, idx);
    ghost var s1 := av.S();
    ChunkSize(s1, p);
    SmallMovedNone(s1, idx, idx - 2);
    SlotsLength(s1);
    if |av.numSlots| > 0 && (nb - MINSIZE) / 16 < av.tcacheSmallBins {
      StashSmall(av, idx);
      KeptSub(s1.m, av.m, LiveOf(av.H), LiveOf(s0.H));
      KeptTrans(s0.m, s1.m, av.m, LiveOf(s0.H));
    }
  }
}
