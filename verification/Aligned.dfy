/** memalign: a cached block at a suitable address, or one cut from a larger block of the arena. */
module Aligned {
  import opened Sizes
  import opened Memory
  import opened Heap
  import opened Arena
  import opened Consolidate
  import opened System
  import opened Tcache
  import opened ExactFit
  import opened Malloc
  import opened Memalign
  import opened Libc

  /** The least power of two, from 32 up, that is at least `alignment`. */
  method RoundToPower(alignment: int) returns (a: int)
    requires alignment > 0
    ensures IsPowerOf2(a) && a >= alignment && a >= 32 && (a == 32 || a < 2 * alignment)
  {
    a := 32;
    assert IsPowerOf2(2) && IsPowerOf2(4) && IsPowerOf2(8) && IsPowerOf2(16) && IsPowerOf2(32);
    while a < alignment
      invariant IsPowerOf2(a) && a >= 32 && (a == 32 || a < 2 * alignment)
      decreases alignment - a
    {
      assert (2 * a) / 2 == a;
      a := 2 * a;
    }
  }

  /** The alignment that is worked with: a power of two, from MINSIZE up, and the one asked for if that is one. */
  ghost predicate RoundsTo(alignment0: int, alignment: int) {
    && IsPowerOf2(alignment) && alignment >= alignment0 && alignment >= MINSIZE && (alignment == MINSIZE || alignment < 2 * alignment0)
  }

  /** Bin t of the cache has a block of just nb bytes at a suitable address. */
  ghost predicate AlignedCached(H: Heap, nb: int, alignment: int)
    requires alignment > 0
  {
    exists q {:trigger InList(H, q, TList(CacheBin(nb)))} :: InList(H, q, TList(CacheBin(nb))) && H[q].n == nb && (q + 16) % alignment == 0
  }

  /** The first such block of the bin was taken. */
  ghost predicate AlignedHit(a0: Snapshot, a1: Snapshot, nb: int, alignment: int, mem: int)
    requires alignment > 0
  {
    var t, p := CacheBin(nb), mem - 16;
    && mem != NULL && InList(a0.s.H, p, TList(t)) && a0.s.H[p].n == nb && mem % alignment == 0 && TakenOut(a0, a1, t, p)
    && exists ep {:trigger LeavesAt(a0.s, a1.s.H, t, ep, p)} :: LeavesAt(a0.s, a1.s.H, t, ep, p) && Skips(a0.s, t, nb, alignment, ep)
  }

  /** All that a call of memalign does: up to 16 what malloc does. Otherwise a cached block is taken if there is one of
      just the size at a suitable address, and the cache is set up if there is none yet; after that, or
      without such a block, the arena serves the request. */
  ghost predicate Memaligns(cfg: Config, a0: Snapshot, a1: Snapshot, alignment0: int, bytes: nat, mem: int, c: Course, alignment: int) {
    if alignment0 <= 16 then
      Mallocs(cfg, a0, a1, bytes, mem, c)
    else if alignment0 > WORD / 2 || bytes > PTRDIFF_MAX then
      mem == NULL && a1 == a0
    else
      && RoundsTo(alignment0, alignment)
      && var nb := Request2Size(bytes);
      if nb < cfg.maxBytes && a0.s.slots == [] then
        c.AfterInit? && Inits(cfg, a0, c.mid, c.init, c.cache) && Aligns(cfg, c.mid, a1, alignment, nb, mem, c.r)
      else if nb < cfg.maxBytes && AlignedCached(a0.s.H, nb, alignment) then
        c.Hit? && AlignedHit(a0, a1, nb, alignment, mem)
      else
        c.Direct? && Aligns(cfg, a0, a1, alignment, nb, mem, c.r)
  }

  /** `_mid_memalign`: a block at an address divisible by the alignment, rounded up to a power of two. */
  method MidMemalign(av: MallocState, alignment0: int, bytes: nat) returns (mem: int, ghost c: Course, ghost rounded: int)
    requires av.Settled() && alignment0 >= 0
    requires !Wrapping(alignment0, bytes)
    modifies av
    ensures old(av.Recorded()) ==> av.Recorded()
    ensures av.Settled()
    ensures mem == NULL ==> Undisturbed(old(av.S()), av.S())
    ensures mem != NULL ==> mem >= HEAP_MIN && Handed(old(av.S()), av.S(), mem - 16, Request2Size(bytes))
    ensures mem != NULL && IsPowerOf2(alignment0) ==> mem % alignment0 == 0
    ensures Memaligns(ConfigOf(av), old(Snap(av)), Snap(av), alignment0, bytes, mem, c, rounded)
  {
    hide Sound, Kept, LiveOf, Quiet, Undisturbed, Handed, Granted, Unsupplied;
    hide IsPowerOf2, Mallocs, Inits, Aligns, AlignedCached, AlignedHit, FastEmpty, Mem.Size;
    ghost var s := av.S();
    UndisturbedRefl(s);
    c, rounded := Hit, alignment0;
    if alignment0 <= 16 {
      mem, c := LibcMalloc(av, bytes);
      if mem != NULL {
        HandedFacts(s, av.S(), mem - 16, Request2Size(bytes));
        SmallAlignment(mem, alignment0);
      }
      return;
    }
    var alignment := if alignment0 < MINSIZE then MINSIZE else alignment0;
    if alignment > 0x8000_0000_0000_0000 {
      return NULL, c, rounded;
    }
    if !IsPowerOf2(alignment) {
      alignment := RoundToPower(alignment);
    }
    AlignmentRange(alignment0, alignment);
    rounded := alignment;
    mem, c := CachedAligned(av, bytes, alignment);
    if mem != NULL {
      return;
    }
    ghost var s1, r := av.S(), Idle(Snap(av));
    mem, r := IntMemalign(av, alignment, bytes);
    c := if c.AfterInit? then c.(r := r) else Direct(r);
    if mem == NULL {
      UnsuppliedUndisturbed(s1, av.S());
      UndisturbedTrans(s, s1, av.S());
    } else {
      SuppliedHanded(s1, av.S(), mem - 16, Request2Size(bytes));
      HandedLater(s, s1, av.S(), mem - 16, Request2Size(bytes));
    }
  }

  /** `tcache_get_align` with its test for the size: a cached block of just the padded size at a suitable address,
      or NULL exactly if there is none. */
  method CachedAligned(av: MallocState, bytes: nat, alignment: int) returns (mem: int, ghost c: Course)
    requires av.Settled() && alignment > 0
    modifies av
    ensures old(av.Recorded()) ==> av.Recorded()
    ensures av.Settled()
    ensures mem == NULL ==> Undisturbed(old(av.S()), av.S())
    ensures mem != NULL ==> mem >= HEAP_MIN && mem % alignment == 0 && Handed(old(av.S()), av.S(), mem - 16, Request2Size(bytes))
    ensures var nb := Request2Size(bytes);
            if bytes > PTRDIFF_MAX || nb >= av.tcacheMaxBytes then mem == NULL && Snap(av) == old(Snap(av)) && c.Hit?
            else if old(av.numSlots) == [] then mem == NULL && c.AfterInit? && c.mid == Snap(av) && Inits(ConfigOf(av), old(Snap(av)), c.mid, c.init, c.cache)
            else if AlignedCached(old(av.H), nb, alignment) then mem != NULL && AlignedHit(old(Snap(av)), Snap(av), nb, alignment, mem) && c.Hit?
            else mem == NULL && Snap(av) == old(Snap(av)) && c.Hit?
  {
    hide Sound, Kept, LiveOf, Quiet, Undisturbed, Handed, LeavesAt, Inits, AlignedCached, FastEmpty, Mem.Size, Mem.Bk;
    ghost var s := av.S();
    UndisturbedRefl(s);
    c := Hit;
    if bytes > PTRDIFF_MAX {
      return NULL, c;
    }
    var nb := Request2Size(bytes);
    Request2SizeIsLeast(bytes, nb);
    if nb >= av.tcacheMaxBytes {
      return NULL, c;
    }
    SlotsLength(s);
    if |av.numSlots| == 0 {
      ghost var init;
      var cache;
      cache, init := TcacheInit(av);
      c := AfterInit(init, cache, Snap(av), init);
      return NULL, c;
    }
    CacheBinRange(nb);
    mem := TcacheGetAlign(av, CacheBin(nb), nb, alignment);
    if mem != NULL {
      CacheHit(s, av.S(), mem - 16, nb);
      SomeAligned(s.H, nb, alignment, mem - 16);
    } else {
      CacheMiss(s, av.S());
      NoneAligned(s.H, nb, alignment);
    }
    SameTop(s, av.S());
  }

  lemma SomeAligned(H: Heap, nb: int, alignment: int, p: int)
    requires alignment > 0 && InList(H, p, TList(CacheBin(nb))) && H[p].n == nb && (p + 16) % alignment == 0
    ensures AlignedCached(H, nb, alignment)
  {}

  lemma NoneAligned(H: Heap, nb: int, alignment: int)
    requires alignment > 0
    requires forall q {:trigger InList(H, q, TList(CacheBin(nb)))} :: InList(H, q, TList(CacheBin(nb))) && H[q].n == nb ==> (q + 16) % alignment != 0
    ensures !AlignedCached(H, nb, alignment)
  {}

  lemma CacheMiss(s: State, s1: State)
    requires s1.m == s.m && s1.H == s.H
    ensures Undisturbed(s, s1) && (Quiet(s.H) ==> Quiet(s1.H))
  {
    KeptRefl(s.m, LiveOf(s.H));
  }

  lemma SmallAlignment(mem: int, alignment: int)
    requires mem % 16 == 0 && 0 <= alignment <= 16
    ensures IsPowerOf2(alignment) ==> alignment > 0 && mem % alignment == 0
  {
    if IsPowerOf2(alignment) {
      SmallPowers(alignment);
    }
  }

  /** What is left of the alignment after rounding. */
  lemma AlignmentRange(alignment0: int, alignment: int)
    requires 16 < alignment0 && IsPowerOf2(alignment)
    requires var a := if alignment0 < MINSIZE then MINSIZE else alignment0;
             a <= 0x8000_0000_0000_0000 && (alignment == a || (!IsPowerOf2(a) && a <= alignment && (alignment == 32 || alignment < 2 * a)))
    ensures alignment >= MINSIZE && alignment <= 0x8000_0000_0000_0000 && (IsPowerOf2(alignment0) ==> alignment == alignment0)
    ensures alignment0 <= 0x4000_0000_0000_0000 ==> alignment <= 0x4000_0000_0000_0000
    ensures RoundsTo(alignment0, alignment)
  {
    if alignment0 < 32 && IsPowerOf2(alignment0) {
      SmallPowers(alignment0);
    }
    BigPowers();
    if alignment < 0x8000_0000_0000_0000 {
      PowersApart(alignment, 0x4000_0000_0000_0000);
    } else {
      PowersApart(alignment, 0x8000_0000_0000_0000);
    }
  }

  lemma PowersSqueeze(x: int, y: int)
    requires IsPowerOf2(x) && IsPowerOf2(y) && x < 2 * y && y < 2 * x
    ensures x == y
  {
    PowersApart(x, y);
    PowersApart(y, x);
  }

  lemma SmallPowers(a: int)
    requires IsPowerOf2(a) && a < 32
    ensures a == 1 || a == 2 || a == 4 || a == 8 || a == 16
  {
    assert a >= 1;
    assert IsPowerOf2(1) && IsPowerOf2(2) && IsPowerOf2(4) && IsPowerOf2(8) && IsPowerOf2(16);
    hide IsPowerOf2;
    if a >= 16 {
      PowersSqueeze(a, 16);
    } else if a >= 8 {
      PowersSqueeze(a, 8);
    } else if a >= 4 {
      PowersSqueeze(a, 4);
    } else if a >= 2 {
      PowersSqueeze(a, 2);
    }
  }
}
