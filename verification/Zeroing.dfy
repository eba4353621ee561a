/** calloc: a cleared block, where memory cut from top is cleared only as far as it may have been written. */
module Zeroing {
  import opened Sizes
  import opened Memory
  import opened Heap
  import opened Arena
  import opened System
  import opened Tcache
  import opened ExactFit
  import opened Malloc
  import opened Top
  import opened Realloc
  import opened ListEntries
  import opened Libc

  /** How much of a block cut from top may have been written before: top itself, or everything up to the
      recorded maximum. The subtraction of pointers is compared as an unsigned number. */
  function WrittenTop(oldtop: int, topsize: int, sbrkBase: int, maxSystemMem: int): int {
    var above := sbrkBase + maxSystemMem - oldtop;
    var unsigned := if above < 0 then above + WORD else above;
    if topsize < unsigned then unsigned else topsize
  }

  /** The words of block `p` are zero up to `from` and from there on what they are in `m0`. */
  ghost predicate ClearedUpTo(m0: Mem, m: Mem, p: int, n: int, from: int) {
    && (forall a {:trigger m.e(a)} :: p + 16 <= a <= p + n ==> m.e(a) == if a <= from then 0 else m0.e(a))
    && (forall a {:trigger m.o(a)} :: p + 16 <= a < p + n ==> m.o(a) == if a < from then 0 else m0.o(a))
  }

  /** The words of block `p` from `from` on are zero. */
  ghost predicate ZeroedFrom(m: Mem, p: int, n: int, from: int) {
    && (forall a {:trigger m.e(a)} :: p + 16 <= a <= p + n && a > from ==> m.e(a) == 0)
    && (forall a {:trigger m.o(a)} :: p + 16 <= a < p + n && a >= from ==> m.o(a) == 0)
  }

  /** Clearing just the beginning is enough exactly if the rest was zero. */
  lemma ClearedExact(m0: Mem, m: Mem, p: int, n: int, from: int)
    requires ClearedUpTo(m0, m, p, n, from)
    ensures Zeroed(m, p, n) <==> ZeroedFrom(m0, p, n, from)
  {
    if Zeroed(m, p, n) {
      forall a | p + 16 <= a <= p + n && a > from ensures m0.e(a) == 0 {
        assert m.e(a) == 0;
      }
      forall a | p + 16 <= a < p + n && a >= from ensures m0.o(a) == 0 {
        assert m.o(a) == 0;
      }
    }
  }

  lemma ClearedPrefix(m: Mem, p: int, n: int, k: int, mark: Beyond)
    requires Untouched(m, p, n, mark) && p + k == mark.at
    ensures ClearedUpTo(mark.words, ClearWords(m, p, Min(k, n)), p, n, mark.at)
  {}

  lemma ZeroedUpTo(m0: Mem, m: Mem, p: int, n: int, from: int)
    requires Zeroed(m, p, n) && p + n <= from
    ensures ClearedUpTo(m0, m, p, n, from)
  {}

  /** Memory behind the arena may be written down as it is. */
  lemma Frozen(s: State, at: int)
    requires Sound(s) && s.top < at
    ensures Sound(s.(mark := Beyond(at, s.m)))
  {}

  /** How far `__libc_calloc2` takes memory from top on to have been written. */
  function WrittenUpTo(av: MallocState): int
    reads av
  {
    av.top + WrittenTop(av.top, av.m.Size(av.top), av.sbrkBase, av.maxSystemMem)
  }

  lemma WrittenFacts(s: State, maxSystemMem: int)
    requires Sound(s) && s.top != Hdr(UNSORTED)
    ensures var from := s.top + WrittenTop(s.top, s.m.Size(s.top), s.sbrkBase, maxSystemMem);
            && s.sbrkBase + s.systemMem <= from && s.sbrkBase + maxSystemMem <= from && s.top < from
            && (s.systemMem <= maxSystemMem ==> from == s.sbrkBase + maxSystemMem)
  {
    TopSizeFacts(s);
  }

  /** In a recorded state what memory reads from there on is zero. */
  lemma RecordedZero(s: State, p: int, n: int)
    requires Sound(s) && Unwritten(s.mark) && p >= HEAP_MIN
    ensures ZeroedFrom(s.m, p, n, s.mark.at)
  {}

  lemma TopOfBlock(s0: State, s: State, p: int, nb: int)
    requires Supplied(s0, s, p, nb) && Sound(s) && Sound(s0) && Quiet(s.H)
    ensures p in LiveOf(s.H) && s.m.Size(p) == LiveOf(s.H)[p] && p >= HEAP_MIN && Handed(s0, s, p, nb)
    ensures p == s0.top ==> Untouched(s.m, p, LiveOf(s.H)[p], s0.mark) && s0.top != Hdr(UNSORTED)
  {
    hide LiveOf, Kept, Untouched, Sound;
    ReallocGuards(s, p);
    SuppliedHanded(s0, s, p, nb);
  }

  /** The same arena, whatever is known of memory behind it. */
  ghost predicate Alike(a: Snapshot, b: Snapshot) {
    a.(s := a.s.(mark := b.s.mark)) == b
  }

  /** `_int_malloc` was called and its block was returned, with nothing done but words of it cleared. */
  ghost predicate Clears(cfg: Config, a0: Snapshot, a1: Snapshot, nb: int, mem: int, r: Request) {
    && Alike(r.at, a0) && Answered(cfg, r, nb) && mem == Payload(r.p)
    && (if mem == NULL then a1 == r.after else a1 == r.after.(s := r.after.s.(m := a1.s.m)))
  }

  /** `__libc_calloc2`: of a block from top only what is taken to have been written before is cleared. In
      a recorded state that is enough. */
  method LibcCalloc2(av: MallocState, sz: nat) returns (mem: int, ghost r: Request)
    requires av.Settled()
    modifies av
    ensures av.Settled() && (old(av.Recorded()) ==> av.Recorded())
    ensures mem == NULL ==> Undisturbed(old(av.S()), av.S())
    ensures mem != NULL ==> mem >= HEAP_MIN && Handed(old(av.S()), av.S(), mem - 16, Request2Size(sz)) && mem - 16 in LiveOf(av.H)
    ensures mem != NULL && mem - 16 == old(av.top) ==> ClearedUpTo(old(av.m), av.m, mem - 16, LiveOf(av.H)[mem - 16], old(WrittenUpTo(av)))
    ensures mem != NULL && (mem - 16 != old(av.top) || old(av.Recorded())) ==> Zeroed(av.m, mem - 16, LiveOf(av.H)[mem - 16])
    ensures if sz > PTRDIFF_MAX then mem == NULL && Alike(old(Snap(av)), Snap(av)) else Clears(ConfigOf(av), old(Snap(av)), Snap(av), Request2Size(sz), mem, r)
  {
    hide Answered, Mem.Size, Sound, Kept, LiveOf, Quiet, Supplied, Unsupplied, Undisturbed, Handed;
    hide Granted, Untouched, Zeroed, ClearWords, ClearedUpTo, ZeroedFrom, WrittenTop, FastEmpty, Failed;
    ghost var s00, from := av.S(), WrittenUpTo(av);
    if av.top != Hdr(UNSORTED) {
      WriteDown(av, from);
    }
    ghost var s0 := av.S();
    var oldtop := av.top;
    var oldtopsize := WrittenTop(oldtop, av.m.Size(oldtop), av.sbrkBase, av.maxSystemMem);
    mem, r := IntMalloc(av, sz);
    ghost var s1 := av.S();
    if mem == NULL {
      UnsuppliedUndisturbed(s0, s1);
      MarkAside(s00, s0, s1, 0, 0);
      return;
    }
    var p := mem - 16;
    ghost var nb := Request2Size(sz);
    TopOfBlock(s0, s1, p, nb);
    var csz := av.m.Size(p);
    ghost var n := LiveOf(s1.H)[p];
    if p == oldtop && csz > oldtopsize {
      csz := oldtopsize;
      ClearedPrefix(s1.m, p, n, csz, s0.mark);
    } else {
      ClearedAll(s1.m, p, csz);
      if p == oldtop {
        ZeroedUpTo(s0.m, ClearWords(s1.m, p, csz), p, n, from);
      }
    }
    Libc.ClearSound(s0, s1, p, csz, nb);
    av.m := ClearWords(av.m, p, csz);
    SameTop(s1, av.S());
    MarkAside(s00, s0, av.S(), p, nb);
    HandedFacts(s00, av.S(), p, nb);
    if p == oldtop && old(av.Recorded()) {
      ClearedExact(s0.m, av.m, p, n, from);
      RecordedZero(s0, p, n);
    }
  }

  lemma MarkAside(s00: State, s0: State, s: State, p: int, nb: int)
    requires s00.H == s0.H && s00.m == s0.m
    ensures Undisturbed(s0, s) ==> Undisturbed(s00, s)
    ensures Handed(s0, s, p, nb) ==> Handed(s00, s, p, nb)
  {}

  /** From now on memory behind `from` is known to be what it is now. */
  ghost method WriteDown(av: MallocState, from: int)
    requires av.Settled() && av.top != Hdr(UNSORTED) && from == WrittenUpTo(av)
    modifies av`mark
    ensures av.Settled() && av.mark == Beyond(from, av.m) && (old(av.Recorded()) ==> av.Recorded())
  {
    WrittenFacts(av.S(), av.maxSystemMem);
    Frozen(av.S(), from);
    av.mark := Beyond(from, av.m);
  }

  /** All that a call of calloc does for the given number of bytes, apart from which words it clears. */
  ghost predicate Callocs(cfg: Config, a0: Snapshot, a1: Snapshot, bytes: nat, mem: int, c: Course) {
    if bytes >= WORD then
      mem == NULL && a1 == a0
    else if bytes > PTRDIFF_MAX then
      mem == NULL && Alike(a0, a1)
    else
      var nb := Request2Size(bytes);
      if nb < cfg.maxBytes && a0.s.slots == [] then
        c.AfterInit? && Inits(cfg, a0, c.mid, c.init, c.cache) && Clears(cfg, c.mid, a1, nb, mem, c.r)
      else if CacheServes(cfg, a0, nb) then
        c.Hit? && Hits(a0, a1, nb, mem)
      else
        c.Direct? && Clears(cfg, a0, a1, nb, mem, c.r)
  }

  /** A request too large for the cache goes to the arena. */
  lemma CallocsLarge(cfg: Config, a0: Snapshot, a1: Snapshot, bytes: nat, mem: int, c: Course)
    requires Callocs(cfg, a0, a1, bytes, mem, c) && bytes <= PTRDIFF_MAX && Request2Size(bytes) >= cfg.maxBytes
    ensures c.Direct? && Clears(cfg, a0, a1, Request2Size(bytes), mem, c.r)
  {
    hide Clears, Inits, Hits, Request2Size;
  }

  /** `__libc_calloc`: NULL if the product overflows; otherwise a new block, from the cache or the arena as for
      malloc, or NULL in the same cases. In a recorded state the block is all zero, and from the cache in any. */
  method LibcCalloc(av: MallocState, n: nat, elemSize: nat) returns (mem: int, ghost c: Course)
    requires av.Settled()
    modifies av
    ensures old(av.Recorded()) ==> av.Recorded()
    ensures av.Settled()
    ensures mem == NULL ==> Undisturbed(old(av.S()), av.S())
    ensures mem != NULL ==> mem >= HEAP_MIN && Handed(old(av.S()), av.S(), mem - 16, Request2Size(n * elemSize))
    ensures mem != NULL ==> mem - 16 in LiveOf(av.H) && (c.Hit? || old(av.Recorded()) ==> Zeroed(av.m, mem - 16, LiveOf(av.H)[mem - 16]))
    ensures mem != NULL && c.Direct? ==>
              if mem - 16 != old(av.top) then Zeroed(av.m, mem - 16, LiveOf(av.H)[mem - 16])
              else ClearedUpTo(old(av.m), av.m, mem - 16, LiveOf(av.H)[mem - 16], old(WrittenUpTo(av)))
    ensures Callocs(ConfigOf(av), old(Snap(av)), Snap(av), n * elemSize, mem, c)
  {
    hide Mem.Size, Sound, Kept, LiveOf, Quiet, Undisturbed, Handed, Zeroed, ClearWords;
    hide ClearedUpTo, WrittenTop, Clears, Inits, NoneCached, BestCached, LeavesFront, LeavesSorted, FastEmpty;
    ghost var s := av.S();
    c := Hit;
    SlotsLength(s);
    UndisturbedRefl(s);
    ProductNat(n, elemSize);
    var bytes := n * elemSize;
    if bytes >= WORD {
      return NULL, c;
    }
    if bytes <= PTRDIFF_MAX {
      var nb := Request2Size(bytes);
      Request2SizeIsLeast(bytes, nb);
      if nb < av.tcacheMaxBytes {
        if |av.numSlots| == 0 {
          ghost var init, r;
          var cache;
          cache, init := TcacheInit(av);
          ghost var s1, mid := av.S(), Snap(av);
          mem, r := LibcCalloc2(av, bytes);
          c := AfterInit(init, cache, mid, r);
          if mem == NULL {
            UndisturbedTrans(s, s1, av.S());
          } else {
            HandedLater(s, s1, av.S(), mem - 16, nb);
          }
          return;
        }
        mem := FromCache(av, nb);
        if mem != NULL {
          ClearHit(av, s, nb, mem);
          return;
        }
      }
    }
    ghost var r;
    mem, r := LibcCalloc2(av, bytes);
    c := Direct(r);
  }

  /** A block from the cache is cleared entirely. */
  method ClearHit(av: MallocState, ghost s: State, nb: int, mem: int)
    requires av.Settled() && mem >= HEAP_MIN && Handed(s, av.S(), mem - 16, nb) && nb % 16 == 0 && nb >= MINSIZE
    requires (nb - MINSIZE) / 16 < TCACHE_SMALL_BINS ==> mem - 16 in LiveOf(av.H) && LiveOf(av.H)[mem - 16] == nb
    requires av.m.Bk(mem - 16) == 0
    modifies av`m
    ensures av.Settled() && Handed(s, av.S(), mem - 16, nb) && mem - 16 in LiveOf(av.H) && Zeroed(av.m, mem - 16, LiveOf(av.H)[mem - 16])
    ensures (old(av.Recorded()) ==> av.Recorded()) && av.m.Bk(mem - 16) == 0 && BooksOf(av) == old(BooksOf(av))
  {
    hide Mem.Size, Sound, Kept, LiveOf, Quiet, Undisturbed, Handed, Zeroed, ClearWords, FastEmpty;
    ghost var s1 := av.S();
    HandedFacts(s, s1, mem - 16, nb);
    ReallocGuards(s1, mem - 16);
    var size := if (nb - MINSIZE) / 16 < TCACHE_SMALL_BINS then nb else av.m.Size(mem - 16);
    Libc.ClearSound(s, s1, mem - 16, size, nb);
    ClearedAll(av.m, mem - 16, size);
    ZeroStays(av.m, mem - 16, size);
    av.m := ClearWords(av.m, mem - 16, size);
    SameTop(s1, av.S());
  }

  lemma ZeroStays(m: Mem, p: int, n: int)
    requires m.Bk(p) == 0
    ensures ClearWords(m, p, n).Bk(p) == 0
  {}

  lemma ProductNat(a: nat, b: nat)
    ensures a * b >= 0
  {}
}
