/** The public entry points for one thread and the main arena: the thread cache first, then the arena. */
module Libc {
  import opened Sizes
  import opened Memory
  import opened Heap
  import opened Steps
  import opened Arena
  import opened Free
  import opened Consolidate
  import opened FreeChunk
  import opened Tcache
  import opened ListEntries
  import opened ExactFit
  import opened Malloc
  import opened Top
  import opened Resize
  import opened Realloc
  import opened DoubleFree

  const TCACHE_BYTES := 760

  /** Whatever the client holds is still there, in size and in contents. */
  ghost predicate Undisturbed(s: State, s': State) {
    Within(LiveOf(s.H), LiveOf(s'.H)) && Kept(s.m, s'.m, LiveOf(s.H))
  }

  ghost predicate Within(L: map<int, int>, L': map<int, int>) {
    forall x {:trigger x in L} :: x in L ==> x in L' && L'[x] == L[x]
  }

  /** Moreover the client was given block `p`, which was not in use and can hold nb - 8 bytes. */
  ghost predicate Handed(s: State, s': State, p: int, nb: int) {
    && Undisturbed(s, s') && p !in LiveOf(s.H) && p in LiveOf(s'.H) && p % 16 == 0
    && nb <= LiveOf(s'.H)[p] && (LiveOf(s'.H)[p] < nb + MINSIZE || LiveOf(s'.H)[p] < 2 * nb)
  }

  lemma UndisturbedTrans(s0: State, s1: State, s2: State)
    requires Undisturbed(s0, s1) && Undisturbed(s1, s2)
    ensures Undisturbed(s0, s2)
  {
    hide LiveOf, SameUser;
    KeptSub(s1.m, s2.m, LiveOf(s1.H), LiveOf(s0.H));
    KeptTrans(s0.m, s1.m, s2.m, LiveOf(s0.H));
  }

  lemma HandedLater(s0: State, s1: State, s2: State, p: int, nb: int)
    requires Undisturbed(s0, s1) && Handed(s1, s2, p, nb)
    ensures Handed(s0, s2, p, nb)
  {
    hide LiveOf, Kept;
    UndisturbedTrans(s0, s1, s2);
  }

  lemma SuppliedHanded(s0: State, s1: State, p: int, nb: int)
    requires Granted(s0.H, s1.H, p, nb) && Kept(s0.m, s1.m, LiveOf(s0.H))
    ensures Handed(s0, s1, p, nb)
  {
    hide LiveOf, Kept;
  }

  lemma UnsuppliedUndisturbed(s0: State, s1: State)
    requires Unsupplied(s0, s1)
    ensures Undisturbed(s0, s1)
  {}

  // ---------------------------------------------------------------- the thread cache

  /** The words of block `p` from its user memory on that lie below p + 16 + (n - 8). */
  function ClearWords(m: Mem, p: int, n: int): Mem {
    Mem(a => if p + 16 <= a <= p + n then 0 else m.e(a), a => if p + 16 <= a < p + n then 0 else m.o(a))
  }

  ghost predicate Zeroed(m: Mem, p: int, n: int) {
    && (forall a {:trigger m.e(a)} :: p + 16 <= a <= p + n ==> m.e(a) == 0)
    && (forall a {:trigger m.o(a)} :: p + 16 <= a < p + n ==> m.o(a) == 0)
  }

  /** Clearing a new block, or the first n bytes of it, disturbs nothing else. */
  lemma ClearSound(s0: State, s: State, p: int, n: int, nb: int)
    requires Sound(s) && Handed(s0, s, p, nb) && n <= LiveOf(s.H)[p]
    ensures var s' := s.(m := ClearWords(s.m, p, n)); Sound(s') && Handed(s0, s', p, nb)
  {
    hide Sound;
    WriteSound(s, ClearWords(s.m, p, n), p);
    KeptSub(s.m, ClearWords(s.m, p, n), LiveOf(s.H) - {p}, LiveOf(s0.H));
    KeptTrans(s0.m, s.m, ClearWords(s.m, p, n), LiveOf(s0.H));
  }

  /** An empty thread cache may be set up. */
  lemma CacheReady(s: State)
    requires Sound(s) && s.slots == []
    ensures Sound(s.(slots := seq(TCACHE_MAX_BINS, _ => TCACHE_FILL_COUNT)))
    ensures forall t {:trigger TList(t)} :: 0 <= t < TCACHE_MAX_BINS ==> Members(s.H, TList(t)) == {}
  {
    BinsEmpty(s);
  }

  /** How `tcache_init` goes: one call of `_int_malloc`, and if that gives a block the cache is set up in it. */
  ghost predicate Inits(cfg: Config, a0: Snapshot, a1: Snapshot, r: Request, cache: int) {
    var nb := Request2Size(TCACHE_BYTES);
    && r.at == a0 && Answered(cfg, r, nb) && cache == Payload(r.p) && (cache == NULL <==> Failed(cfg, r, nb))
    && (if cache == NULL then
          a1 == r.after
        else
          && a1 == r.after.(s := r.after.s.(m := a1.s.m, slots := seq(TCACHE_MAX_BINS, _ => TCACHE_FILL_COUNT)))
          && Handed(a0.s, a1.s, cache - 16, nb) && Zeroed(a1.s.m, cache - 16, nb))
  }

  /** `tcache_init`: the cache is a new block of the arena like any other, cleared, with seven free slots for
      each bin; without memory it stays NULL and there are no slots. Either way all bins are empty. */
  method TcacheInit(av: MallocState) returns (cache: int, ghost r: Request)
    requires av.Settled() && av.numSlots == []
    modifies av
    ensures old(av.Recorded()) ==> av.Recorded()
    ensures av.Settled() && Undisturbed(old(av.S()), av.S())
    ensures Inits(ConfigOf(av), old(Snap(av)), Snap(av), r, cache)
    ensures forall t {:trigger TList(t)} :: 0 <= t < TCACHE_MAX_BINS ==> Members(av.H, TList(t)) == {}
  {
    hide Sound, Kept, LiveOf, Quiet, Supplied, Unsupplied, Undisturbed, Handed, Granted, Untouched, Answered, Failed, Mem.Size, FastEmpty;
    ghost var s0 := av.S();
    cache, r := IntMalloc(av, TCACHE_BYTES);
    ghost var s1 := av.S();
    if cache == NULL {
      UnsuppliedUndisturbed(s0, s1);
      BinsEmpty(s1);
      return;
    }
    var nb := Request2Size(TCACHE_BYTES);
    SuppliedGranted(s0, s1, cache - 16, nb);
    SuppliedHanded(s0, s1, cache - 16, nb);
    HandedFacts(s0, s1, cache - 16, nb);
    ClearSound(s0, s1, cache - 16, nb, nb);
    ClearedAll(av.m, cache - 16, nb);
    av.m := ClearWords(av.m, cache - 16, nb);
    SameTop(s1, av.S());
    HandedFacts(s0, av.S(), cache - 16, nb);
    CacheReady(av.S());
    av.numSlots := seq(TCACHE_MAX_BINS, _ => TCACHE_FILL_COUNT);
    SlotsUndisturbed(s0, s1.(m := av.m), av.numSlots, cache - 16, nb);
  }

  /** While there are no slots nothing is cached. */
  lemma BinsEmpty(s: State)
    requires Sound(s) && s.slots == []
    ensures forall t {:trigger TList(t)} :: 0 <= t < TCACHE_MAX_BINS ==> Members(s.H, TList(t)) == {}
  {
    forall t | 0 <= t < TCACHE_MAX_BINS ensures Members(s.H, TList(t)) == {} {
      assert Members(s.H, 10 + t) == {};
    }
  }

  lemma ClearedAll(m: Mem, p: int, n: int)
    ensures Zeroed(ClearWords(m, p, n), p, n)
  {}

  lemma SuppliedGranted(s0: State, s1: State, p: int, nb: int)
    requires Supplied(s0, s1, p, nb)
    ensures Granted(s0.H, s1.H, p, nb) && Kept(s0.m, s1.m, LiveOf(s0.H))
  {}

  lemma HandedFacts(s0: State, s1: State, p: int, nb: int)
    requires Handed(s0, s1, p, nb)
    ensures p in LiveOf(s1.H) && nb <= LiveOf(s1.H)[p] && Undisturbed(s0, s1) && p !in LiveOf(s0.H) && p % 16 == 0
  {}

  lemma SlotsUndisturbed(s0: State, s1: State, slots: seq<int>, p: int, nb: int)
    requires Handed(s0, s1, p, nb)
    ensures Undisturbed(s0, s1.(slots := slots)) && Handed(s0, s1.(slots := slots), p, nb)
  {}

  /** A cached block was taken: the rest of what is live is the same. */
  lemma CacheHit(s: State, s1: State, p: int, nb: int)
    requires Sound(s) && Sound(s1) && p in s.H && s.H[p].st.Listed? && s1.H == s.H[p := Chunk(s.H[p].n, Live)] && Quiet(s.H)
    requires s.H[p].st.l >= NFASTBINS && s.H[p].n >= nb && (s.H[p].n == nb || s.H[p].n < 2 * nb)
    requires LiveOf(s1.H) == LiveOf(s.H)[p := s.H[p].n] && Kept(s.m, s1.m, LiveOf(s.H))
    ensures Handed(s, s1, p, nb) && Quiet(s1.H) && p >= HEAP_MIN && (FastEmpty(s.H, NFASTBINS) ==> FastEmpty(s1.H, NFASTBINS))
  {
    hide Sound, Kept;
    ChunkSize(s, p);
    QuietTake(s.H, s1.H, p);
  }

  lemma LargeHit(s: State, t: int, nb: int, p: int)
    requires Sound(s) && BestCached(s.H, TList(t), nb, p) && TCACHE_SMALL_BINS <= t < TCACHE_MAX_BINS && t == LargeTidx(nb) && nb >= MINSIZE
    ensures p in s.H && nb <= s.H[p].n < 2 * nb && s.H[p].st.Listed? && s.H[p].st.l >= NFASTBINS
  {
    hide Marks, Slots, Fresh;
    assert SingleOk(s.H, p);
    Log2Double(nb, s.H[p].n);
  }

  /** The bin of the thread cache for a padded size. */
  function CacheBin(nb: int): int {
    if (nb - MINSIZE) / 16 < TCACHE_SMALL_BINS then (nb - MINSIZE) / 16 else LargeTidx(nb)
  }

  lemma CacheBinRange(nb: int)
    requires nb % 16 == 0 && MINSIZE <= nb < 0x40_0000
    ensures 0 <= CacheBin(nb) < TCACHE_MAX_BINS
    ensures (nb - MINSIZE) / 16 < TCACHE_SMALL_BINS <==> CacheBin(nb) < TCACHE_SMALL_BINS
    ensures CacheBin(nb) < TCACHE_SMALL_BINS ==> nb == 16 * CacheBin(nb) + MINSIZE
    ensures CacheBin(nb) >= TCACHE_SMALL_BINS ==> CacheBin(nb) == LargeTidx(nb)
  {
    if (nb - MINSIZE) / 16 >= TCACHE_SMALL_BINS {
      LargeTidxRange(nb);
    }
  }

  lemma SmallCached(s: State, t: int, nb: int)
    requires Sound(s) && 0 <= t < TCACHE_SMALL_BINS && nb == 16 * t + MINSIZE
    ensures s.m.e(Cell(TList(t))) == NULL ==> NoneCached(s.H, TList(t), nb)
    ensures forall p {:trigger InList(s.H, p, TList(t))} :: InList(s.H, p, TList(t)) ==> BestCached(s.H, TList(t), nb, p)
  {
    hide Marks, Slots, Fresh;
    var l := TList(t);
    assert ListAt(s.m, s.H, l, Cell(l));
    forall p | InList(s.H, p, l) ensures s.H[p].n == nb && After(s.H, l, Cell(l), p) {
      assert SingleOk(s.H, p);
    }
  }

  /** No cached block in list l can hold nb bytes. */
  ghost predicate NoneCached(H: Heap, l: int, nb: int) {
    forall q {:trigger InList(H, q, l)} :: InList(H, q, l) ==> H[q].n < nb
  }

  /** The block `p` left bin t of the cache, and nothing else has changed. */
  ghost predicate TakenOut(a0: Snapshot, a1: Snapshot, t: int, p: int) {
    && p in a0.s.H && 0 <= t < |a0.s.slots|
    && a1 == a0.(s := a0.s.(m := a1.s.m, H := a0.s.H[p := Chunk(a0.s.H[p].n, Live)], slots := a0.s.slots[t := a0.s.slots[t] + 1]))
    && a1.s.m.Bk(p) == 0
  }

  /** The request for nb bytes was served from the cache: by a smallest block of the bin for its size that fits,
      the first of its kind. */
  ghost predicate Hits(a0: Snapshot, a1: Snapshot, nb: int, mem: int) {
    var t := CacheBin(nb);
    && mem != NULL && BestCached(a0.s.H, TList(t), nb, mem - 16) && TakenOut(a0, a1, t, mem - 16)
    && (if t < TCACHE_SMALL_BINS then LeavesFront(a0.s.H, a1.s.H, TList(t), mem - 16) else LeavesSorted(a0.s.H, a1.s.H, t, mem - 16, nb))
  }

  /** The thread cache's answer to a request: the smallest block of the bin for its size that fits, or
      NULL exactly if none does. */
  method FromCache(av: MallocState, nb: int) returns (mem: int)
    requires av.Settled() && |av.numSlots| == TCACHE_MAX_BINS && nb % 16 == 0 && MINSIZE <= nb < av.tcacheMaxBytes
    modifies av`m, av`H, av`numSlots
    ensures av.Settled() && |av.numSlots| == TCACHE_MAX_BINS
    ensures mem != NULL ==> mem >= HEAP_MIN && Handed(old(av.S()), av.S(), mem - 16, nb)
    ensures mem != NULL && (nb - MINSIZE) / 16 < TCACHE_SMALL_BINS ==> mem - 16 in LiveOf(av.H) && LiveOf(av.H)[mem - 16] == nb
    ensures mem == NULL <==> NoneCached(old(av.H), TList(CacheBin(nb)), nb)
    ensures if mem == NULL then Snap(av) == old(Snap(av)) else Hits(old(Snap(av)), Snap(av), nb, mem)
  {
    hide Sound, Kept, LiveOf, Quiet, Handed, BestCached, LeavesFront, LeavesSorted, NoneCached, FastEmpty, Mem.Size, Mem.Bk;
    ghost var s := av.S();
    CacheBinRange(nb);
    var tcIdx := (nb - MINSIZE) / 16;
    mem := NULL;
    if tcIdx < TCACHE_SMALL_BINS {
      SmallCached(s, tcIdx, nb);
      if av.m.e(Cell(TList(tcIdx))) != NULL {
        mem := TcacheGet(av, tcIdx);
        CacheHit(s, av.S(), mem - 16, nb);
        SomeCached(s.H, TList(tcIdx), nb, mem - 16);
        SameTop(s, av.S());
      }
    } else {
      tcIdx := LargeTidx(nb);
      mem := TcacheGetLarge(av, tcIdx, nb);
      if mem != NULL {
        LargeHit(s, tcIdx, nb, mem - 16);
        CacheHit(s, av.S(), mem - 16, nb);
        BestSome(s.H, TList(tcIdx), nb, mem - 16);
        SameTop(s, av.S());
      } else {
        NothingCached(s.H, TList(tcIdx), nb);
      }
    }
  }

  lemma SomeCached(H: Heap, l: int, nb: int, p: int)
    requires InList(H, p, l) && H[p].n >= nb
    ensures !NoneCached(H, l, nb)
  {}

  lemma BestSome(H: Heap, l: int, nb: int, p: int)
    requires BestCached(H, l, nb, p)
    ensures !NoneCached(H, l, nb)
  {}

  lemma NothingCached(H: Heap, l: int, nb: int)
    requires forall q {:trigger InList(H, q, l)} :: InList(H, q, l) ==> H[q].n < nb
    ensures NoneCached(H, l, nb)
  {}

  // ---------------------------------------------------------------- malloc

  /** How a request was served: from the cache, by one call of `_int_malloc`, or by one that came after the cache
      was set up. */
  datatype Course = Hit | Direct(r: Request) | AfterInit(init: Request, cache: int, mid: Snapshot, r: Request)

  /** `_int_malloc` was called, and its result was returned. */
  ghost predicate Allots(cfg: Config, a0: Snapshot, a1: Snapshot, nb: int, mem: int, r: Request) {
    r.at == a0 && r.after == a1 && Answered(cfg, r, nb) && mem == Payload(r.p)
  }

  /** The cache is to serve the request. */
  ghost predicate CacheServes(cfg: Config, a0: Snapshot, nb: int) {
    nb < cfg.maxBytes && a0.s.slots != [] && !NoneCached(a0.s.H, TList(CacheBin(nb)), nb)
  }

  /** All that a call of malloc does: a request that is not too large for the cache is served from it if there is
      a cached block in its bin that fits, and sets the cache up if there is none yet. Otherwise the arena
      serves it. */
  ghost predicate Mallocs(cfg: Config, a0: Snapshot, a1: Snapshot, bytes: nat, mem: int, c: Course) {
    if bytes > PTRDIFF_MAX then
      mem == NULL && a1 == a0
    else
      var nb := Request2Size(bytes);
      if nb < cfg.maxBytes && a0.s.slots == [] then
        c.AfterInit? && Inits(cfg, a0, c.mid, c.init, c.cache) && Allots(cfg, c.mid, a1, nb, mem, c.r)
      else if CacheServes(cfg, a0, nb) then
        c.Hit? && Hits(a0, a1, nb, mem)
      else
        c.Direct? && Allots(cfg, a0, a1, nb, mem, c.r)
  }

  /** A request too large for the cache goes to the arena. */
  lemma MallocsLarge(cfg: Config, a0: Snapshot, a1: Snapshot, bytes: nat, mem: int, c: Course)
    requires Mallocs(cfg, a0, a1, bytes, mem, c) && bytes <= PTRDIFF_MAX && Request2Size(bytes) >= cfg.maxBytes
    ensures c.Direct? && Allots(cfg, a0, a1, Request2Size(bytes), mem, c.r)
  {
    hide Allots, Inits, Hits, Request2Size;
  }

  /** `__libc_malloc2`. */
  method LibcMalloc2(av: MallocState, bytes: nat) returns (mem: int, ghost r: Request)
    requires av.Settled()
    modifies av
    ensures old(av.Recorded()) ==> av.Recorded()
    ensures av.Settled() && |av.numSlots| == |old(av.numSlots)|
    ensures mem == NULL ==> Undisturbed(old(av.S()), av.S())
    ensures mem != NULL ==> mem >= HEAP_MIN && Handed(old(av.S()), av.S(), mem - 16, Request2Size(bytes))
    ensures mem == NULL <==> bytes > PTRDIFF_MAX || Failed(ConfigOf(av), r, Request2Size(bytes))
    ensures if bytes > PTRDIFF_MAX then Snap(av) == old(Snap(av)) else Allots(ConfigOf(av), old(Snap(av)), Snap(av), Request2Size(bytes), mem, r)
  {
    hide Sound, Kept, LiveOf, Quiet, Supplied, Unsupplied, Undisturbed, Handed, Granted, Untouched, Answered, Failed;
    ghost var s := av.S();
    mem, r := IntMalloc(av, bytes);
    if mem == NULL {
      UnsuppliedUndisturbed(s, av.S());
    } else {
      SuppliedGranted(s, av.S(), mem - 16, Request2Size(bytes));
      SuppliedHanded(s, av.S(), mem - 16, Request2Size(bytes));
    }
  }

  lemma UndisturbedRefl(s: State)
    ensures Undisturbed(s, s)
  {
    KeptRefl(s.m, LiveOf(s.H));
  }

  /** `__libc_malloc`: a block from the cache or the arena. NULL exactly if the request is too large, or there
      is nothing in the cache, no free chunk and not enough top for it, and the system gives too little. */
  method LibcMalloc(av: MallocState, bytes: nat) returns (mem: int, ghost c: Course)
    requires av.Settled()
    modifies av
    ensures old(av.Recorded()) ==> av.Recorded()
    ensures av.Settled()
    ensures Mallocs(ConfigOf(av), old(Snap(av)), Snap(av), bytes, mem, c)
    ensures mem == NULL <==> bytes > PTRDIFF_MAX || (!c.Hit? && Failed(ConfigOf(av), c.r, Request2Size(bytes)))
    ensures mem == NULL ==> Undisturbed(old(av.S()), av.S())
    ensures mem != NULL ==> mem >= HEAP_MIN && Handed(old(av.S()), av.S(), mem - 16, Request2Size(bytes))
  {
    hide Sound, Kept, LiveOf, Quiet, Undisturbed, Handed, Inits, Allots, Hits, Failed, NoneCached, FastEmpty, Mem.Size;
    ghost var s := av.S();
    SlotsLength(s);
    if bytes <= PTRDIFF_MAX {
      var nb := Request2Size(bytes);
      Request2SizeIsLeast(bytes, nb);
      if nb < av.tcacheMaxBytes {
        if |av.numSlots| == 0 {
          ghost var init, r;
          var cache;
          cache, init := TcacheInit(av);
          ghost var s1, mid := av.S(), Snap(av);
          mem, r := LibcMalloc2(av, bytes);
          c := AfterInit(init, cache, mid, r);
          if mem == NULL {
            UndisturbedTrans(s, s1, av.S());
          } else {
            HandedLater(s, s1, av.S(), mem - 16, nb);
          }
          return;
        }
        mem := FromCache(av, nb);
        if mem != NULL {
          c := Hit;
          return;
        }
      }
    }
    ghost var r;
    mem, r := LibcMalloc2(av, bytes);
    c := Direct(r);
  }

  // ---------------------------------------------------------------- free

  /** Block `p` is no longer in use; the others are as they were. */
  ghost predicate Freed(s: State, s': State, p: int) {
    p in LiveOf(s.H) && LiveOf(s'.H) == LiveOf(s.H) - {p} && Kept(s.m, s'.m, LiveOf(s'.H))
  }

  /** Block `p` went to bin t of the cache, and nothing else has changed. Its second word holds the key. */
  ghost predicate PutIn(cfg: Config, a0: Snapshot, a1: Snapshot, t: int, p: int)
    requires p in a0.s.H
  {
    && 0 <= t < |a0.s.slots| && p in a1.s.H && a1.s.H == a0.s.H[p := a1.s.H[p]] && a1.s.H[p].n == a0.s.H[p].n && InList(a1.s.H, p, TList(t))
    && a1 == a0.(s := a0.s.(m := a1.s.m, H := a1.s.H, slots := a0.s.slots[t := a0.s.slots[t] - 1]))
    && (if t < TCACHE_SMALL_BINS then EntersFront(a0.s.H, a1.s.H, TList(t), p) else EntersSorted(a0.s.H, a1.s.H, t, p, a0.s.H[p].n))
    && a1.s.m.Bk(p) == cfg.key
  }

  /** The cache has a place for a block of the given size. */
  ghost predicate CacheTakes(cfg: Config, a0: Snapshot, size: int) {
    size < cfg.maxBytes && 0 <= CacheBin(size) < |a0.s.slots| && a0.s.slots[CacheBin(size)] > 0
  }

  /** All that a call of free for block `p` does: the cache takes it if it is not too large and its bin has a free
      slot, otherwise the arena does. A word of the block that happens to hold the key is cleared before. */
  ghost predicate Frees(cfg: Config, a0: Snapshot, a1: Snapshot, p: int)
    requires p in a0.s.H
  {
    var size := a0.s.H[p].n;
    if CacheTakes(cfg, a0, size) then PutIn(cfg, a0, a1, CacheBin(size), p) else ArenaTakes(cfg.answers, Unkeyed(cfg, a0, p), a1, p)
  }

  ghost function Unkeyed(cfg: Config, a: Snapshot, p: int): (u: Snapshot)
    requires p in a.s.H
    ensures u.s.H == a.s.H
  {
    if a.s.H[p].n < cfg.maxBytes && a.s.slots != [] && a.s.m.Bk(p) == cfg.key then a.(s := a.s.(m := a.s.m.SetBk(p, 0))) else a
  }

  /** So does a block too large for the cache. */
  lemma FreesLarge(cfg: Config, a0: Snapshot, a1: Snapshot, p: int)
    requires p in a0.s.H && Frees(cfg, a0, a1, p) && a0.s.H[p].n >= cfg.maxBytes && a0.s.H[p].n > MAX_FAST
    ensures Recycles(cfg.answers, a0, a1, p)
  {
    hide Recycles, PutIn;
  }

  lemma FreesUnkeyed(cfg: Config, a: Snapshot, u: Snapshot, a1: Snapshot, p: int)
    requires p in a.s.H && u == Unkeyed(cfg, a, p) && u.s.m.Bk(p) != cfg.key && Frees(cfg, u, a1, p)
    ensures Frees(cfg, a, a1, p)
  {
    hide ArenaTakes, EntersFront, EntersSorted;
  }

  lemma FreedPut(s: State, s1: State, p: int, t: int)
    requires Quiet(s.H) && p in s1.H && s1.H == s.H[p := s1.H[p]] && InList(s1.H, p, TList(t)) && t >= 0
    requires p in LiveOf(s.H) && LiveOf(s1.H) == LiveOf(s.H) - {p} && Kept(s.m, s1.m, LiveOf(s1.H))
    ensures Freed(s, s1, p) && Quiet(s1.H) && (FastEmpty(s.H, NFASTBINS) ==> FastEmpty(s1.H, NFASTBINS))
  {
    QuietPut(s.H, s1.H, p, t);
  }

  lemma FreedLater(s: State, s1: State, s2: State, p: int)
    requires p in LiveOf(s.H) && s1.H == s.H && Kept(s.m, s1.m, LiveOf(s.H) - {p}) && Freed(s1, s2, p)
    ensures Freed(s, s2, p)
  {
    hide LiveOf;
    KeptTrans(s.m, s1.m, s2.m, LiveOf(s2.H));
  }

  /** Clearing the word that happened to hold the key. */
  lemma KeyCleared(s: State, p: int)
    requires Sound(s) && p in LiveOf(s.H) && LiveOf(s.H)[p] >= MINSIZE
    ensures var m' := s.m.SetBk(p, 0); Sound(s.(m := m')) && Kept(s.m, m', LiveOf(s.H) - {p})
  {
    hide Sound;
    WriteSound(s, s.m.SetBk(p, 0), p);
  }

  /** What is freed is a block in use, or one freed before that is still in the cache with its key. */
  ghost predicate Freeable(av: MallocState, p: int)
    reads av
  {
    p in LiveOf(av.H) || (Cached(av.H, p) && av.H[p].n < av.tcacheMaxBytes && av.m.Bk(p) == av.tcacheKey)
  }

  /** `__libc_free`: for a block in use no check fires, even if its second word holds the cache's key; a block that
      is in the cache with its key intact is found to have been freed before. */
  method LibcFree(av: MallocState, mem: int) returns (verdict: Verdict)
    requires av.Settled() && (mem == NULL || Freeable(av, mem - 16))
    modifies av`m, av`H, av`numSlots, av`top, av`binmap, av`haveFastchunks, av`brk, av`calls, av`systemMem
    ensures av.Settled() && av.systemMem <= old(av.systemMem)
    ensures verdict == if mem == NULL || mem - 16 in old(LiveOf(av.H)) then Clear else DoubleFree
    ensures mem == NULL || verdict.DoubleFree? ==> Snap(av) == old(Snap(av))
    ensures mem != NULL && verdict.Clear? ==> Freed(old(av.S()), av.S(), mem - 16) && mem - 16 in old(av.H) && Frees(ConfigOf(av), old(Snap(av)), Snap(av), mem - 16)
    decreases if mem != NULL && av.m.Bk(mem - 16) == av.tcacheKey then 1 else 0
  {
    hide Sound, Kept, LiveOf, Quiet, Freed, Mem.SetBk, ArenaTakes, Mem.Size, SameCached, PutIn, FastEmpty, Cached, SameFences;
    verdict := Clear;
    if mem == NULL {
      return;
    }
    ghost var s, a := av.S(), Snap(av);
    var p := mem - 16;
    FreeGuards(s, p);
    SlotsLength(s);
    var size := av.m.Size(p);
    if mem % 16 != 0 {
      assert false; // free(): invalid pointer
    }
    if size < av.tcacheMaxBytes && |av.numSlots| > 0 {
      if av.m.Bk(p) == av.tcacheKey {
        verdict := DoubleFreeVerify(av, mem);
        if verdict.DoubleFree? {
          return;
        }
        KeyCleared(s, p);
        BkWritten(av.m, p);
        av.m := av.m.SetBk(p, 0);
        SameTop(s, av.S());
        ghost var s1 := av.S();
        ghost var a1 := Snap(av);
        verdict := LibcFree(av, mem);
        FreedLater(s, s1, av.S(), p);
        FreesUnkeyed(ConfigOf(av), a, a1, Snap(av), p);
        return;
      }
      var taken := CachePut(av, p, size);
      if taken {
        return;
      }
    }
    IntFreeChunk(av, p, size);
    FreedArena(s, av.S(), p);
  }

  /** The last part of what is done for the cache: the block enters the bin for its size if that has a free slot. */
  method CachePut(av: MallocState, p: int, size: int) returns (taken: bool)
    requires av.Settled() && p in LiveOf(av.H) && size == av.H[p].n < av.tcacheMaxBytes && |av.numSlots| == TCACHE_MAX_BINS
    modifies av`m, av`H, av`numSlots
    ensures av.Settled() && taken == old(CacheTakes(ConfigOf(av), Snap(av), size))
    ensures if taken then Freed(old(av.S()), av.S(), p) && p in old(av.H) && PutIn(ConfigOf(av), old(Snap(av)), Snap(av), CacheBin(size), p)
            else Snap(av) == old(Snap(av))
  {
    hide Sound, Kept, LiveOf, Quiet, Freed, Mem.Size, EntersFront, EntersSorted, FastEmpty;
    ghost var s := av.S();
    ReallocGuards(s, p);
    SlotsLength(s);
    CacheBinRange(size);
    var tcIdx := (size - MINSIZE) / 16;
    if tcIdx < TCACHE_SMALL_BINS {
      if av.numSlots[tcIdx] != 0 {
        TcachePut(av, p, tcIdx);
        FreedPut(s, av.S(), p, tcIdx);
        SameTop(s, av.S());
        return true;
      }
    } else {
      tcIdx := LargeTidx(size);
      if size >= MINSIZE && av.numSlots[tcIdx] != 0 {
        TcachePutLarge(av, p, tcIdx);
        FreedPut(s, av.S(), p, tcIdx);
        SameTop(s, av.S());
        return true;
      }
    }
    return false;
  }

  /** What is read of a block that is freed, be it in use or in the cache. */
  lemma FreeGuards(s: State, p: int)
    requires Sound(s) && (p in LiveOf(s.H) || Cached(s.H, p))
    ensures p in s.H && s.m.Size(p) == s.H[p].n && s.H[p].n % 16 == 0 && s.H[p].n >= MINSIZE && p % 16 == 0
    ensures p in LiveOf(s.H) ==> s.H[p].n == LiveOf(s.H)[p] && !Cached(s.H, p)
    ensures Cached(s.H, p) ==> |s.slots| > 0
  {
    hide Sound;
    if p in LiveOf(s.H) {
      LiveNotCached(s.H, p);
    } else {
      CachedSlots(s, p);
    }
    ChunkSize(s, p);
  }

  lemma CachedSlots(s: State, p: int)
    requires Sound(s) && Cached(s.H, p)
    ensures |s.slots| > 0
  {
    hide Core, TopOk, Marks, Fresh;
    var t :| 0 <= t < TCACHE_MAX_BINS && InList(s.H, p, TList(t));
    assert p in Members(s.H, 10 + t);
  }

  lemma BkWritten(m: Mem, p: int)
    ensures m.SetBk(p, 0).Bk(p) == 0
  {}

  lemma FreedArena(s: State, s1: State, p: int)
    requires p in LiveOf(s.H) && LiveOf(s1.H) == LiveOf(s.H) - {p} && Kept(s.m, s1.m, LiveOf(s1.H))
    ensures Freed(s, s1, p)
  {}

  // ---------------------------------------------------------------- realloc

  lemma SameBlock(s: State, p: int, bytes: nat)
    requires p in LiveOf(s.H) && p % 16 == 0 && LiveOf(s.H)[p] % 16 == 0 && LiveOf(s.H)[p] >= MINSIZE
    requires 0 <= UsableSize(LiveOf(s.H)[p]) - bytes < 16
    ensures Resized(s, s, p, p, Request2Size(bytes))
  {
    hide LiveOf;
    Request2SizeIsLeast(bytes, LiveOf(s.H)[p]);
    KeptRefl(s.m, LiveOf(s.H) - {p});
    assert LiveOf(s.H) == (LiveOf(s.H) - {p})[p := LiveOf(s.H)[p]];
  }

  /** The request is for what the block can hold, or less than 16 bytes less. */
  predicate Snug(n: int, bytes: nat) {
    0 <= UsableSize(n) - bytes < 16
  }

  /** All that a call of realloc does: with NULL what malloc does and with size 0 what free does. A block that fits
      snugly is left alone. Any other is resized where it is if there is room, and otherwise moved; NULL comes
      back if the request is too large or the block cannot be moved. */
  ghost predicate Reallocs(cfg: Config, a0: Snapshot, a1: Snapshot, oldmem: int, bytes: nat, mem: int, c: Course)
    requires oldmem == NULL || oldmem - 16 in LiveOf(a0.s.H)
  {
    if oldmem == NULL then
      Mallocs(cfg, a0, a1, bytes, mem, c)
    else
      var p, n, nb := oldmem - 16, LiveOf(a0.s.H)[oldmem - 16], Request2Size(bytes);
      if bytes == 0 then mem == NULL && Frees(cfg, a0, a1, p)
      else if Snug(n, bytes) then mem == oldmem && a1 == a0
      else if bytes > PTRDIFF_MAX then mem == NULL && a1 == a0
      else if Room(a0.s, p, nb) then mem == oldmem && Stays(a0.s, a1.s, p, nb)
      else c.Direct? && Moves(cfg, a0, a1, p, n, nb, mem, c.r)
  }

  /** `__libc_realloc`: with NULL it allocates, with size 0 it frees; otherwise the block is resized, its
      contents kept as far as they fit, or NULL is returned and everything is as before. */
  method LibcRealloc(av: MallocState, oldmem: int, bytes: nat) returns (mem: int, ghost c: Course)
    requires av.Settled() && (oldmem == NULL || oldmem - 16 in LiveOf(av.H))
    modifies av
    ensures old(av.Recorded()) ==> av.Recorded()
    ensures av.Settled()
    ensures oldmem == NULL && mem != NULL ==> mem >= HEAP_MIN && Handed(old(av.S()), av.S(), mem - 16, Request2Size(bytes))
    ensures oldmem != NULL && bytes == 0 ==> mem == NULL && Freed(old(av.S()), av.S(), oldmem - 16)
    ensures oldmem != NULL && bytes > 0 && mem != NULL ==> mem >= HEAP_MIN && Resized(old(av.S()), av.S(), oldmem - 16, mem - 16, Request2Size(bytes))
    ensures (oldmem == NULL || bytes > 0) && mem == NULL ==> Undisturbed(old(av.S()), av.S())
    ensures Reallocs(ConfigOf(av), old(Snap(av)), Snap(av), oldmem, bytes, mem, c)
  {
    hide Sound, Kept, LiveOf, Quiet, Undisturbed, Handed, Freed, Resized, Unsupplied, Mallocs, Frees, Moves, Stays, Room, FastEmpty, Mem.Size;
    c := Hit;
    if oldmem == NULL {
      mem, c := LibcMalloc(av, bytes);
      return;
    }
    if bytes == 0 {
      var verdict := LibcFree(av, oldmem);
      return NULL, c;
    }
    ghost var s := av.S();
    UndisturbedRefl(s);
    var oldp := oldmem - 16;
    ReallocGuards(s, oldp);
    InuseNext(s, oldp);
    var oldsize := av.m.Size(oldp);
    var usable := if av.m.PrevInuse(oldp + oldsize) then UsableSize(oldsize) else 0;
    if bytes <= usable {
      var difference := usable - bytes;
      if difference < 16 {
        SameBlock(s, oldp, bytes);
        return oldmem, c;
      }
    }
    if oldmem % 16 != 0 {
      assert false; // realloc(): invalid pointer
    }
    if bytes > PTRDIFF_MAX {
      return NULL, c;
    }
    var nb := Request2Size(bytes);
    Request2SizeIsLeast(bytes, nb);
    ghost var r;
    mem, r := IntRealloc(av, oldp, oldsize, nb);
    c := Direct(r);
    if mem == NULL {
      UnsuppliedUndisturbed(s, av.S());
    }
  }

  lemma InuseNext(s: State, p: int)
    requires Sound(s) && Quiet(s.H) && p in LiveOf(s.H)
    ensures s.m.PrevInuse(p + LiveOf(s.H)[p])
  {
    BehindFacts(s, p);
  }

}
