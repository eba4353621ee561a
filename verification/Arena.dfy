/** The arena (struct malloc_state, the parameters in struct malloc_par and the per-thread cache)
    and what every operation on it keeps. */
module Arena {
  import opened Sizes
  import opened Memory
  import opened Heap
  import opened RingProofs
  import opened Steps
  import opened ListingProofs
  import opened Binmap

  const TCACHE_FILL_COUNT := 7

  // ---------------------------------------------------------------- live blocks

  /** The blocks the client holds: chunk address to chunk size. */
  ghost function LiveOf(H: Heap): map<int, int> {
    map p | p in H && H[p].st.Live? :: H[p].n
  }

  /** The words of block `p` that belong to the client, up to and including the word it shares with
      the next chunk's mchunk_prev_size. */
  ghost predicate SameUser(m: Mem, m': Mem, p: int, n: int) {
    && (forall a {:trigger m'.e(a)} :: p + 16 <= a <= p + n ==> m'.e(a) == m.e(a))
    && (forall a {:trigger m'.o(a)} :: p + 16 <= a < p + n ==> m'.o(a) == m.o(a))
  }

  /** No user word of the blocks in L changed. */
  ghost predicate Kept(m: Mem, m': Mem, L: map<int, int>) {
    forall p {:trigger SameUser(m, m', p, L[p])} :: p in L ==> SameUser(m, m', p, L[p])
  }

  lemma KeptTrans(m0: Mem, m1: Mem, m2: Mem, L: map<int, int>)
    requires Kept(m0, m1, L) && Kept(m1, m2, L)
    ensures Kept(m0, m2, L)
  {
    forall p | p in L ensures SameUser(m0, m2, p, L[p]) {
      assert SameUser(m0, m1, p, L[p]) && SameUser(m1, m2, p, L[p]);
    }
  }

  lemma KeptSub(m: Mem, m': Mem, L: map<int, int>, L': map<int, int>)
    requires Kept(m, m', L) && forall p :: p in L' ==> p in L && L[p] == L'[p]
    ensures Kept(m, m', L')
  {
    forall p | p in L' ensures SameUser(m, m', p, L'[p]) {
      assert SameUser(m, m', p, L[p]);
    }
  }

  /** Address `a` lies in chunk `x`, behind its head (`e`) or at its head and up (`o`). */
  ghost predicate InBody(H: Heap, x: int, a: int) {
    x in H && x < a <= x + H[x].n
  }

  ghost predicate InWhole(H: Heap, x: int, a: int) {
    x in H && x <= a <= x + H[x].n
  }

  /** `m'` differs from `m` only in the arena's tables and in the chunks x1 to x4, heads and footers included. */
  ghost predicate Touches(m: Mem, m': Mem, H: Heap, x1: int, x2: int, x3: int, x4: int) {
    && (forall a {:trigger m'.e(a)} :: a >= HEAP_MIN && !InBody(H, x1, a) && !InBody(H, x2, a) && !InBody(H, x3, a) && !InBody(H, x4, a) ==>
          m'.e(a) == m.e(a))
    && (forall a {:trigger m'.o(a)} :: a >= HEAP_MIN && !InWhole(H, x1, a) && !InWhole(H, x2, a) && !InWhole(H, x3, a) && !InWhole(H, x4, a) ==>
          m'.o(a) == m.o(a))
  }

  ghost predicate NotLive(H: Heap, x: int) {
    x in H ==> !H[x].st.Live?
  }

  /** Memory above `top`'s first words is unchanged. */
  ghost predicate AboveSame(m: Mem, m': Mem, top: int) {
    forall a {:trigger m'.e(a)} {:trigger m'.o(a)} :: a > top && a >= HEAP_MIN ==> m'.e(a) == m.e(a) && m'.o(a) == m.o(a)
  }

  lemma TouchesKept(m: Mem, m': Mem, H: Heap, base: int, top: int, x1: int, x2: int, x3: int, x4: int)
    requires base >= HEAP_MIN && Tiled(H, base, top) && Touches(m, m', H, x1, x2, x3, x4)
    requires NotLive(H, x1) && NotLive(H, x2) && NotLive(H, x3) && NotLive(H, x4)
    ensures Kept(m, m', LiveOf(H)) && AboveSame(m, m', top)
  {
    assert x1 in H ==> Placed(H, base, top, x1);
    assert x2 in H ==> Placed(H, base, top, x2);
    assert x3 in H ==> Placed(H, base, top, x3);
    assert x4 in H ==> Placed(H, base, top, x4);
    var L := LiveOf(H);
    forall p | p in L ensures SameUser(m, m', p, L[p]) {
      assert Placed(H, base, top, p);
      assert p != x1 ==> Apart(H, p, x1);
      assert p != x2 ==> Apart(H, p, x2);
      assert p != x3 ==> Apart(H, p, x3);
      assert p != x4 ==> Apart(H, p, x4);
    }
  }

  // ---------------------------------------------------------------- the rest of the invariant

  /** Before the first allocation top is the unsorted bin's header, whose head word is last_remainder,
      still zero. Afterwards top is a chunk of at least MINSIZE that ends where the arena ends, on a
      page boundary, and its P bit is set. */
  ghost predicate TopOk(m: Mem, H: Heap, base: int, top: int, sbrkBase: int, systemMem: int) {
    if top == Hdr(UNSORTED) then
      H == map[] && m.Head(top) == 0 && systemMem == 0 && sbrkBase == NULL
    else
      && HEAP_MIN <= sbrkBase && base <= top && top % 16 == 0 && sbrkBase <= base && (sbrkBase + systemMem) % PAGE == 0
      && m.Head(top) == sbrkBase + systemMem - top + 1
      && sbrkBase + systemMem - top >= MINSIZE
  }

  /** What is known of memory that the arena does not use: from `at` on it reads as `words`. */
  datatype Beyond = Beyond(at: int, words: Mem)

  ghost predicate Fresh(m: Mem, mark: Beyond) {
    forall a {:trigger m.e(a)} {:trigger m.o(a)} :: a >= HEAP_MIN && a >= mark.at ==> m.e(a) == mark.words.e(a) && m.o(a) == mark.words.o(a)
  }

  /** Memory from the mark on reads as the zeros the system delivered. */
  ghost predicate Unwritten(mark: Beyond) {
    forall a {:trigger mark.words.e(a)} {:trigger mark.words.o(a)} :: a >= HEAP_MIN && a >= mark.at ==> mark.words.e(a) == 0 && mark.words.o(a) == 0
  }

  function Raised(mark: Beyond, at: int): Beyond {
    if mark.at > at then mark else mark.(at := at)
  }

  lemma FreshKeeps(s: State, m': Mem)
    requires Sound(s) && AboveSame(s.m, m', s.top) && s.top != Hdr(UNSORTED)
    ensures Fresh(m', s.mark)
  {}

  /** A bin that holds chunks has its bit set. */
  ghost predicate Marks(s: Binmap, H: Heap) {
    forall b, p {:trigger InBin(H, p, b)} :: 2 <= b <= 126 && InBin(H, p, b) ==> Marked(s, b)
  }

  ghost predicate EmptyBin(H: Heap, b: int) {
    forall q {:trigger InBin(H, q, b)} :: !InBin(H, q, b)
  }

  ghost function Members(H: Heap, l: int): set<int> {
    set p | p in H && InList(H, p, l)
  }

  /** `num_slots` counts the free places of each thread-cache bin; [] while tcache is NULL. */
  ghost predicate Slots(slots: seq<int>, H: Heap) {
    && (|slots| == 0 || |slots| == TCACHE_MAX_BINS)
    && (|slots| == 0 ==> forall t {:trigger Members(H, 10 + t)} :: 0 <= t < TCACHE_MAX_BINS ==> Members(H, 10 + t) == {})
    && (forall t {:trigger slots[t]} :: 0 <= t < |slots| ==>
          slots[t] >= 0 && slots[t] + |Members(H, 10 + t)| == TCACHE_FILL_COUNT)
  }

  lemma SlotsFrame(slots: seq<int>, H: Heap, H': Heap)
    requires Slots(slots, H) && SameListed(H, H')
    ensures Slots(slots, H')
  {
    forall l ensures Members(H', l) == Members(H, l) {
      forall p ensures p in Members(H', l) <==> p in Members(H, l) {
        assert InList(H, p, l) <==> InList(H', p, l);
      }
    }
  }

  ghost predicate NoRaw(H: Heap) {
    forall p {:trigger H[p]} :: p in H ==> !H[p].st.Raw?
  }

  /** The only chunk the operation owns is `p`. */
  ghost predicate OnlyRaw(H: Heap, p: int) {
    forall x {:trigger H[x]} :: x in H && H[x].st.Raw? ==> x == p
  }

  /** Between operations none is owned and no fastbin is being worked through. */
  ghost predicate Quiet(H: Heap) {
    NoRaw(H) && ChainHead(H, NULL)
  }

  /** No fastbin below l holds a chunk. */
  ghost predicate FastEmpty(H: Heap, l: int) {
    forall x, k {:trigger InList(H, x, k)} :: InList(H, x, k) ==> !(0 <= k < l)
  }

  lemma QuietListed(H: Heap, H': Heap)
    requires ChainHead(H, NULL) && NoRaw(H') && SameListed(H, H')
    ensures Quiet(H') && (FastEmpty(H, NFASTBINS) ==> FastEmpty(H', NFASTBINS))
  {
    ListedEmpty(H, H');
  }

  lemma QuietFrame(H: Heap, H': Heap)
    requires Quiet(H) && NoRaw(H') && SameListed(H, H')
    ensures Quiet(H') && (FastEmpty(H, NFASTBINS) ==> FastEmpty(H', NFASTBINS))
  {
    ListedEmpty(H, H');
  }

  lemma ListedEmpty(H: Heap, H': Heap)
    requires SameListed(H, H')
    ensures FastEmpty(H, NFASTBINS) ==> FastEmpty(H', NFASTBINS)
  {
    if FastEmpty(H, NFASTBINS) {
      forall x, k | InList(H', x, k) ensures !(0 <= k < NFASTBINS) {
        assert InList(H, x, k);
      }
    }
  }

  /** A snapshot of the arena together with the ghost heap. */
  datatype State = State(m: Mem, H: Heap, base: int, top: int, binmap: Binmap, slots: seq<int>,
                         sbrkBase: int, systemMem: int, mark: Beyond)

  /** What holds between the steps of an operation. */
  ghost predicate Sound(s: State) {
    && Core(s.m, s.H, s.base, s.top)
    && TopOk(s.m, s.H, s.base, s.top, s.sbrkBase, s.systemMem)
    && Marks(s.binmap, s.H)
    && Slots(s.slots, s.H)
    && (s.top != Hdr(UNSORTED) ==> s.top < s.mark.at)
    && Fresh(s.m, s.mark)
  }

  /** The key is chosen anew until it is larger than this. */
  type CacheKey = k: int | k > 0x100_0000 witness 0x100_0001

  /** `tcache_max_bytes`: no more than the largest bin can take. */
  type CacheLimit = n: int | 0 <= n <= 0x40_0000 witness 1041

  /** `tcache_small_bins`: `do_set_tcache_max` lowers it together with a limit below 1041 and does not raise
      it again. Nothing is asked of how the two go together. */
  type BinLimit = n: int | 1 <= n <= TCACHE_SMALL_BINS witness 64

  /** Memory after malloc_init_state: every bin header links to itself, everything else is zero. */
  ghost predicate Blank(m: Mem, bins: int) {
    && (forall b {:trigger Hdr(b)} :: 1 <= b < bins ==> m.Fd(Hdr(b)) == Hdr(b) && m.Bk(Hdr(b)) == Hdr(b))
    && (forall a {:trigger m.e(a)} :: !(Hdr(1) + 16 <= a < Hdr(bins) + 16 && a % 16 == 0) ==> m.e(a) == 0)
    && (forall a {:trigger m.o(a)} :: !(Hdr(1) + 16 <= a < Hdr(bins) + 16 && a % 16 == 0) ==> m.o(a) == 0)
  }

  lemma BlankStep(m: Mem, i: int)
    requires Blank(m, i) && 1 <= i <= 127
    ensures Blank(m.SetFd(Hdr(i), Hdr(i)).SetBk(Hdr(i), Hdr(i)), i + 1)
  {}

  lemma BlankSound(s: State)
    requires Blank(s.m, 128) && s == State(s.m, map[], HEAP_MIN, Hdr(UNSORTED), s.binmap, [], NULL, 0, Beyond(0, ZEROS))
    ensures Sound(s) && Quiet(s.H)
  {
    forall b, x | 1 <= b <= 127 ensures RingAt(s.m, s.H, b, x) {
      assert Hdr(b) == s.m.Fd(Hdr(b));
      assert Follows(s.H, b, Hdr(b), Hdr(b));
    }
    forall l, a | DETACHED <= l < 86 ensures ListAt(s.m, s.H, l, a) {}
    forall l ensures Members(s.H, l) == {} {}
  }

  /** What the system and others do when the arena asks about memory: by how much the break was moved
      before, whether the request is refused, how many pages are taken back at most, and what others
      wrote to memory of theirs. */
  datatype Answer = Answer(moved: nat, refused: bool, pages: nat, junk: Mem)

  /** The parameters of the allocator, and what the system will answer. */
  datatype Config = Config(key: CacheKey, unsortedLimit: nat, smallBins: BinLimit, maxBytes: CacheLimit, answers: nat -> Answer)

  function ConfigOf(av: MallocState): Config {
    Config(av.tcacheKey, av.tcacheUnsortedLimit, av.tcacheSmallBins, av.tcacheMaxBytes, av.answers)
  }

  /** What `sysmalloc` goes by and what it changes, apart from memory. */
  datatype Books = Books(top: int, topSize: int, base: int, sbrkBase: int, systemMem: int, maxSystemMem: int, calls: nat, brk: int)

  ghost function BooksOf(av: MallocState): Books
    reads av
  {
    Books(av.top, av.m.Size(av.top), av.base, av.sbrkBase, av.systemMem, av.maxSystemMem, av.calls, av.brk)
  }

  /** All there is to say about the arena at one moment. */
  datatype Snapshot = Snapshot(s: State, fast: bool, books: Books)

  ghost function Snap(av: MallocState): Snapshot
    reads av
  {
    Snapshot(av.S(), av.haveFastchunks, BooksOf(av))
  }

  class MallocState {
    var m: Mem
    var top: int
    var haveFastchunks: bool
    var binmap: Binmap
    var numSlots: seq<int>
    var systemMem: int
    var maxSystemMem: int
    var sbrkBase: int
    const tcacheKey: CacheKey
    const tcacheUnsortedLimit: nat
    const tcacheSmallBins: BinLimit
    const tcacheMaxBytes: CacheLimit
    /** The process break, how often the system was asked so far, and its answer to each question. */
    var brk: int
    var calls: nat
    const answers: nat -> Answer
    ghost var H: Heap
    ghost var base: int
    /** From here on nothing is written. */
    ghost var mark: Beyond

    ghost function S(): State
      reads this
    {
      State(m, H, base, top, binmap, numSlots, sbrkBase, systemMem, mark)
    }

    ghost predicate Ok()
      reads this
    {
      Sound(S())
    }

    /** What holds while the fastbins are emptied. */
    ghost predicate Steady()
      reads this
    {
      Ok() && Quiet(H) && HEAP_MIN <= brk && sbrkBase + systemMem <= brk
    }

    /** What holds between the stages of an operation: moreover, as long as `have_fastchunks` is not set, the
        fastbins are empty. */
    ghost predicate Valid()
      reads this
    {
      Steady() && (!haveFastchunks ==> FastEmpty(H, NFASTBINS))
    }

    /** What holds between operations. */
    ghost predicate Settled()
      reads this
    {
      Valid() && sbrkBase + systemMem <= mark.at && sbrkBase + maxSystemMem <= mark.at && (sbrkBase == NULL ==> maxSystemMem == 0)
    }

    /** As long as every growth of the arena was recorded, `sbrk_base + max_system_mem` is where memory
        begins that has never been written. */
    ghost predicate Recorded()
      reads this
    {
      mark.at == sbrkBase + maxSystemMem && Unwritten(mark)
    }

    /** `malloc_init_state` for the main arena, over static storage that is zero. */
    constructor (key: CacheKey, unsortedLimit: nat, smallBins: BinLimit, maxBytes: CacheLimit, start: int, system: nat -> Answer)
      requires start >= HEAP_MIN
      ensures Settled() && Recorded() && H == map[] && numSlots == [] && answers == system && calls == 0 && brk == start
      ensures top == Hdr(UNSORTED) && systemMem == maxSystemMem == 0 && sbrkBase == NULL && !haveFastchunks
      ensures tcacheKey == key && tcacheUnsortedLimit == unsortedLimit && tcacheSmallBins == smallBins && tcacheMaxBytes == maxBytes
    {
      tcacheKey, tcacheUnsortedLimit, tcacheSmallBins, tcacheMaxBytes, answers := key, unsortedLimit, smallBins, maxBytes, system;
      calls := 0;
      m := ZEROS;
      haveFastchunks, binmap, numSlots := false, [0, 0, 0, 0], [];
      systemMem, maxSystemMem, sbrkBase, brk := 0, 0, NULL, start;
      top := Hdr(UNSORTED);
      H, base, mark := map[], HEAP_MIN, Beyond(0, ZEROS);
      new;
      var i := 1;
      while i < NBINS
        invariant 1 <= i <= NBINS && Blank(m, i)
        invariant H == map[] && base == HEAP_MIN && top == Hdr(UNSORTED) && numSlots == [] && sbrkBase == NULL && !haveFastchunks
        invariant systemMem == 0 && mark == Beyond(0, ZEROS) && maxSystemMem == 0 && brk == start && calls == 0
      {
        BlankStep(m, i);
        var bin := Hdr(i);
        m := m.SetFd(bin, bin).SetBk(bin, bin);
        i := i + 1;
      }
      BlankSound(S());
    }
  }
}
