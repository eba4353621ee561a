/** A client of the allocator, and every run it can drive: it frees and resizes only blocks it holds and
    writes only within their usable bytes. */
module Runs {
  import opened Sizes
  import opened Memory
  import opened Heap
  import opened Arena
  import opened Consolidate
  import opened System
  import opened ListEntries
  import opened FreeChunk
  import opened Tcache
  import opened DoubleFree
  import opened Malloc
  import opened Resize
  import opened Realloc
  import opened Memalign
  import opened Libc
  import opened Zeroing
  import opened Aligned
  import opened Trim

  // ---------------------------------------------------------------- what the client expects to read

  /** The blocks in `held` do not overlap. */
  ghost predicate Separate(held: map<int, int>) {
    forall p, q {:trigger p in held, q in held} :: p in held && q in held && p != q ==> p + held[p] <= q || q + held[q] <= p
  }

  lemma LiveSeparate(s: State)
    requires Sound(s)
    ensures Separate(LiveOf(s.H))
  {
    hide Links, Marks, Slots, Fresh;
    var L := LiveOf(s.H);
    forall p, q | p in L && q in L && p != q ensures p + L[p] <= q || q + L[q] <= p {
      assert Apart(s.H, p, q);
    }
  }

  lemma SubSeparate(held: map<int, int>, L: map<int, int>)
    requires Separate(L) && Within(held, L)
    ensures Separate(held)
  {}

  /** The user words of block `p` as they are in `m`, everything else as in `want`. */
  ghost function Overlay(want: Mem, m: Mem, p: int, n: int): Mem {
    Mem(a => if p + 16 <= a <= p + n then m.e(a) else want.e(a), a => if p + 16 <= a < p + n then m.o(a) else want.o(a))
  }

  lemma OverlayKept(want: Mem, m: Mem, held: map<int, int>, p: int, n: int)
    requires Kept(want, m, held) && Separate(held[p := n]) && p !in held
    ensures Kept(Overlay(want, m, p, n), m, held[p := n])
  {
    var h' := held[p := n];
    var w' := Overlay(want, m, p, n);
    forall x | x in h' ensures SameUser(w', m, x, h'[x]) {
      assert p in h';
      if x != p {
        assert SameUser(want, m, x, held[x]);
      }
    }
  }

  /** The same store made in the memory and in what the client expects. */
  function Store(m: Mem, even: bool, a: int, v: int): Mem {
    if even then Mem(Put(m.e, a, v), m.o) else Mem(m.e, Put(m.o, a, v))
  }

  /** The word at `a` of the given bank is a user word of block `p` of size n. */
  predicate UserWord(p: int, n: int, even: bool, a: int) {
    p + 16 <= a && (if even then a <= p + n else a < p + n)
  }

  lemma StoreKept(want: Mem, m: Mem, held: map<int, int>, p: int, even: bool, a: int, v: int)
    requires Kept(want, m, held) && p in held && UserWord(p, held[p], even, a)
    ensures Kept(Store(want, even, a, v), Store(m, even, a, v), held)
  {
    forall x | x in held ensures SameUser(Store(want, even, a, v), Store(m, even, a, v), x, held[x]) {
      assert SameUser(want, m, x, held[x]);
    }
  }

  lemma WithinTrans(a: map<int, int>, b: map<int, int>, c: map<int, int>)
    requires Within(a, b) && Within(b, c)
    ensures Within(a, c)
  {}

  datatype Op =
    | Malloc(bytes: nat)
    | Calloc(n: nat, elemSize: nat)
    | Memalign(alignment: nat, bytes: nat)
    | Realloc(k: nat, bytes: nat)
    | Free(k: nat)
    | Write(k: nat, even: bool, offset: nat, value: int)
    | Trim(pad: nat)

  // ---------------------------------------------------------------- what an operation does

  /** What there is to see between two operations: the pointers returned so far, the blocks behind those not
      freed, the memory the client expects, the arena as it is, and whether all of its growth was
      recorded. */
  datatype View = View(ptrs: seq<int>, held: map<int, int>, want: Mem, arena: Snapshot, recorded: bool) {
    function Memory(): Mem { arena.s.m }
  }

  /** For the client nothing has changed. */
  ghost predicate Same(v: View, v': View) {
    v'.ptrs == v.ptrs && v'.held == v.held && v'.want == v.want
  }

  /** There is one more block, for the given request: it overlaps none, and all others are as they were. */
  ghost predicate Gained(v: View, v': View, bytes: nat) {
    && |v'.ptrs| == |v.ptrs| + 1 && v'.ptrs == v.ptrs + [v'.ptrs[|v.ptrs|]]
    && var p := v'.ptrs[|v.ptrs|] - 16;
    && p !in v.held && p in v'.held && v'.held == v.held[p := v'.held[p]]
    && UsableSize(v'.held[p]) >= bytes && Kept(v.want, v'.want, v.held)
  }

  /** The block behind pointer k is gone, and all others are as they were. */
  ghost predicate Released(v: View, v': View, k: nat)
    requires k < |v.ptrs|
  {
    && v'.ptrs == v.ptrs[k := NULL] && v'.want == v.want
    && v'.held == if v.ptrs[k] == NULL then v.held else v.held - {v.ptrs[k] - 16}
  }

  /** The block behind pointer k can hold the request, perhaps at another place, with its contents kept as
      far as they fit, and all others are as they were. */
  ghost predicate Reshaped(v: View, v': View, k: nat, bytes: nat)
    requires k < |v.ptrs|
  {
    && |v'.ptrs| == |v.ptrs| && v'.ptrs == v.ptrs[k := v'.ptrs[k]] && v'.ptrs[k] != NULL
    && var p, p' := v.ptrs[k] - 16, v'.ptrs[k] - 16;
    && p in v.held && p' in v'.held && v'.held == (v.held - {p})[p' := v'.held[p']] && p' !in v.held - {p}
    && UsableSize(v'.held[p']) >= bytes && Copied(v.want, v'.want, p, p', Min(v.held[p], v'.held[p']))
    && Kept(v.want, v'.want, v.held - {p})
  }

  /** An allocation returned `mem`: with NULL nothing has changed for the client, otherwise it has one more block. */
  ghost predicate Came(v: View, v': View, bytes: nat, mem: int) {
    if mem == NULL then Same(v, v') else Gained(v, v', bytes) && v'.ptrs[|v.ptrs|] == mem
  }

  /** The script's operation turns one view into the next: the arena does what its part of the allocator is to do,
      and the client sees what comes of that. What names no block or no usable word does nothing. */
  ghost predicate Does(cfg: Config, op: Op, v: View, v': View) {
    && (op.Trim? || (v.recorded ==> v'.recorded))
    && match op
       case Malloc(bytes) =>
         exists mem, c {:trigger Mallocs(cfg, v.arena, v'.arena, bytes, mem, c)} ::
           Mallocs(cfg, v.arena, v'.arena, bytes, mem, c) && Came(v, v', bytes, mem)
       case Calloc(n, elemSize) =>
         exists mem, c {:trigger Callocs(cfg, v.arena, v'.arena, n * elemSize, mem, c)} ::
           && Callocs(cfg, v.arena, v'.arena, n * elemSize, mem, c) && Came(v, v', n * elemSize, mem)
           && (mem != NULL && (v.recorded || c.Hit?) ==> mem - 16 in v'.held && Zeroed(v'.want, mem - 16, v'.held[mem - 16]))
       case Memalign(alignment, bytes) =>
         if Wrapping(alignment, bytes) then v' == v
         else
           exists mem, c, rounded {:trigger Memaligns(cfg, v.arena, v'.arena, alignment, bytes, mem, c, rounded)} ::
             && Memaligns(cfg, v.arena, v'.arena, alignment, bytes, mem, c, rounded) && Came(v, v', bytes, mem)
             && (mem != NULL && IsPowerOf2(alignment) ==> mem % alignment == 0)
       case Realloc(k, bytes) =>
         if k >= |v.ptrs| || v.ptrs[k] == NULL then v' == v
         else
           && v.ptrs[k] - 16 in LiveOf(v.arena.s.H)
           && exists mem, c {:trigger Reallocs(cfg, v.arena, v'.arena, v.ptrs[k], bytes, mem, c)} ::
                && Reallocs(cfg, v.arena, v'.arena, v.ptrs[k], bytes, mem, c)
                && (if bytes == 0 then Released(v, v', k)
                    else if mem == NULL then Same(v, v')
                    else Reshaped(v, v', k, bytes) && v'.ptrs[k] == mem)
       case Free(k) =>
         if k >= |v.ptrs| || v.ptrs[k] == NULL then v' == v
         else v.ptrs[k] - 16 in v.arena.s.H && Frees(cfg, v.arena, v'.arena, v.ptrs[k] - 16) && Released(v, v', k)
       case Write(k, even, offset, value) =>
         if Writable(v, k, even, offset) then
           && v'.ptrs == v.ptrs && v'.held == v.held && v'.want == Store(v.want, even, v.ptrs[k] + offset, value)
           && v'.arena == v.arena.(s := v.arena.s.(m := Store(v.arena.s.m, even, v.ptrs[k] + offset, value)))
         else
           v' == v
       case Trim(pad) =>
         if pad >= WORD || Overdrawing(pad) then v' == v
         else
           && Same(v, v') && FastEmpty(v'.arena.s.H, NFASTBINS) && SameCached(v.arena.s.H, v'.arena.s.H)
           && (v'.arena.books.systemMem <= v.arena.books.systemMem && v.recorded ==> v'.recorded)
           && exists r, topSize {:trigger Trimmed(cfg.answers, v.arena.books, v'.arena.books, pad, r, topSize)} ::
                Trimmed(cfg.answers, v.arena.books, v'.arena.books, pad, r, topSize)
  }

  /** The word at the offset is a usable word of the block behind pointer k. */
  ghost predicate Writable(v: View, k: nat, even: bool, offset: nat) {
    k < |v.ptrs| && v.ptrs[k] != NULL && v.ptrs[k] - 16 in v.held && UserWord(v.ptrs[k] - 16, v.held[v.ptrs[k] - 16], even, v.ptrs[k] + offset)
  }

  class Client {
    const av: MallocState
    /** What malloc and its kin returned; NULL once freed. */
    var ptrs: seq<int>
    /** The blocks behind the pointers, with their sizes. */
    ghost var held: map<int, int>
    /** A memory that only the client's own stores, calloc and realloc change. */
    ghost var want: Mem

    /** The pointers name different blocks, all of them live, and every usable word of every block
        reads as the client expects. */
    ghost predicate Consistent()
      reads this, av
    {
      && av.Settled() && Within(held, LiveOf(av.H)) && Kept(want, av.m, held)
      && (forall i {:trigger ptrs[i]} :: 0 <= i < |ptrs| && ptrs[i] != NULL ==> ptrs[i] - 16 in held)
      && (forall i, j {:trigger ptrs[i], ptrs[j]} :: 0 <= i < j < |ptrs| && ptrs[i] == ptrs[j] ==> ptrs[i] == NULL)
    }

    ghost function Now(): View
      reads this, av
    {
      View(ptrs, held, want, Snap(av), av.Recorded())
    }

    constructor (key: CacheKey, unsortedLimit: nat, smallBins: BinLimit, maxBytes: CacheLimit, start: int, system: nat -> Answer)
      requires start >= HEAP_MIN
      ensures Consistent() && fresh(av) && ptrs == [] && held == map[] && av.Recorded()
      ensures ConfigOf(av) == Config(key, unsortedLimit, smallBins, maxBytes, system)
    {
      av := new MallocState(key, unsortedLimit, smallBins, maxBytes, start, system);
      ptrs, held, want := [], map[], Mem(_ => 0, _ => 0);
    }

    /** Take note of a new block. */
    method Hold(mem: int, ghost s0: State, ghost nb: int) returns (k: nat)
      requires av.Settled() && Within(held, LiveOf(s0.H)) && Kept(want, s0.m, held) && mem >= HEAP_MIN && Handed(s0, av.S(), mem - 16, nb)
      requires forall i {:trigger ptrs[i]} :: 0 <= i < |ptrs| && ptrs[i] != NULL ==> ptrs[i] - 16 in held
      requires forall i, j {:trigger ptrs[i], ptrs[j]} :: 0 <= i < j < |ptrs| && ptrs[i] == ptrs[j] ==> ptrs[i] == NULL
      modifies this
      ensures Consistent() && ptrs == old(ptrs) + [mem] && k == |old(ptrs)|
      ensures mem - 16 !in old(held) && mem - 16 in held && held == old(held)[mem - 16 := held[mem - 16]] && nb <= held[mem - 16]
      ensures want == Overlay(old(want), av.m, mem - 16, held[mem - 16]) && Kept(old(want), want, old(held))
    {
      hide Sound, Kept, LiveOf, Quiet;
      ghost var p := mem - 16;
      HandedFacts(s0, av.S(), p, nb);
      ghost var n := LiveOf(av.H)[p];
      HoldFacts(s0, av.S(), held, want, p, n, nb);
      k := |ptrs|;
      ptrs := ptrs + [mem];
      want := Overlay(want, av.m, p, n);
      held := held[p := n];
    }

    /** Nothing the client holds has changed. */
    lemma Unmoved(s0: State, s1: State)
      requires Within(held, LiveOf(s0.H)) && Kept(want, s0.m, held) && Undisturbed(s0, s1)
      ensures Within(held, LiveOf(s1.H)) && Kept(want, s1.m, held)
    {
      hide LiveOf, SameUser;
      WithinTrans(held, LiveOf(s0.H), LiveOf(s1.H));
      KeptSub(s0.m, s1.m, LiveOf(s0.H), held);
      KeptTrans(want, s0.m, s1.m, held);
    }

    /** malloc: the blocks held before keep their contents; a new one does not overlap them. */
    method DoMalloc(bytes: nat) returns (mem: int, ghost c: Course)
      requires Consistent()
      modifies this, av
      ensures Consistent() && (old(av.Recorded()) ==> av.Recorded())
      ensures Mallocs(ConfigOf(av), old(Snap(av)), Snap(av), bytes, mem, c) && Came(old(Now()), Now(), bytes, mem)
    {
      hide Sound, Kept, LiveOf, Quiet, Undisturbed, Handed, Overlay, Mallocs, FastEmpty, Failed, Mem.Size;
      ghost var s0 := av.S();
      mem, c := LibcMalloc(av, bytes);
      if mem == NULL {
        Unmoved(s0, av.S());
        return;
      }
      Request2SizeIsLeast(bytes, 0);
      var k := Hold(mem, s0, Request2Size(bytes));
    }

    /** calloc: moreover the new block reads as zeros, as long as no growth of the arena went unrecorded, and always
        if it comes from the cache. */
    method DoCalloc(n: nat, elemSize: nat) returns (mem: int, ghost c: Course)
      requires Consistent()
      modifies this, av
      ensures Consistent() && (old(av.Recorded()) ==> av.Recorded())
      ensures Callocs(ConfigOf(av), old(Snap(av)), Snap(av), n * elemSize, mem, c) && Came(old(Now()), Now(), n * elemSize, mem)
      ensures mem != NULL && (old(av.Recorded()) || c.Hit?) ==> mem - 16 in held && Zeroed(want, mem - 16, held[mem - 16])
    {
      hide Sound, Kept, LiveOf, Quiet, Undisturbed, Handed, Zeroed, Overlay, Callocs, ClearedUpTo, FastEmpty, Mem.Size, WrittenTop;
      ghost var s0 := av.S();
      ProductNat(n, elemSize);
      mem, c := LibcCalloc(av, n, elemSize);
      if mem == NULL {
        Unmoved(s0, av.S());
        return;
      }
      Request2SizeIsLeast(n * elemSize, 0);
      ghost var want0 := want;
      var k := Hold(mem, s0, Request2Size(n * elemSize));
      HeldLive(held, LiveOf(av.H), mem - 16);
      if old(av.Recorded()) || c.Hit? {
        OverlayZero(want0, av.m, mem - 16, held[mem - 16]);
      }
    }

    /** memalign: the pointer is a multiple of the alignment, if that is a power of two. */
    method DoMemalign(alignment: nat, bytes: nat) returns (mem: int, ghost c: Course, ghost rounded: int)
      requires Consistent() && !Wrapping(alignment, bytes)
      modifies this, av
      ensures Consistent() && (old(av.Recorded()) ==> av.Recorded())
      ensures Memaligns(ConfigOf(av), old(Snap(av)), Snap(av), alignment, bytes, mem, c, rounded) && Came(old(Now()), Now(), bytes, mem)
      ensures mem != NULL && IsPowerOf2(alignment) ==> mem % alignment == 0
    {
      hide Sound, Kept, LiveOf, Quiet, Undisturbed, Handed, Overlay, Memaligns, FastEmpty, Mem.Size;
      ghost var s0 := av.S();
      mem, c, rounded := MidMemalign(av, alignment, bytes);
      if mem == NULL {
        Unmoved(s0, av.S());
        return;
      }
      Request2SizeIsLeast(bytes, 0);
      var k := Hold(mem, s0, Request2Size(bytes));
    }

    /** free: the other blocks keep their contents. */
    method DoFree(k: nat)
      requires Consistent() && k < |ptrs| && ptrs[k] != NULL
      modifies this, av
      ensures Consistent() && (old(av.Recorded()) ==> av.Recorded()) && Released(old(Now()), Now(), k)
      ensures var p := old(ptrs)[k] - 16; p in old(av.H) && Frees(ConfigOf(av), old(Snap(av)), Snap(av), p)
    {
      hide Sound, Kept, LiveOf, Quiet, Frees, FastEmpty, Mem.Size;
      var mem := ptrs[k];
      ghost var s0 := av.S();
      HeldLive(held, LiveOf(av.H), mem - 16);
      var verdict := LibcFree(av, mem);
      if verdict.DoubleFree? {
        assert false; // free(): double free detected in tcache 2
      }
      FreedHeld(s0, av.S(), held, want, mem - 16);
      held := held - {mem - 16};
      ptrs := ptrs[k := NULL];
    }

    /** Take note that the block behind pointer k has been resized. */
    method Rehold(k: nat, mem: int, ghost s0: State, ghost nb: int)
      requires av.Settled() && Within(held, LiveOf(s0.H)) && Kept(want, s0.m, held) && mem >= HEAP_MIN
      requires k < |ptrs| && ptrs[k] != NULL && Resized(s0, av.S(), ptrs[k] - 16, mem - 16, nb)
      requires forall i {:trigger ptrs[i]} :: 0 <= i < |ptrs| && ptrs[i] != NULL ==> ptrs[i] - 16 in held
      requires forall i, j {:trigger ptrs[i], ptrs[j]} :: 0 <= i < j < |ptrs| && ptrs[i] == ptrs[j] ==> ptrs[i] == NULL
      modifies this
      ensures Consistent() && ptrs == old(ptrs)[k := mem]
      ensures var p, p' := old(ptrs)[k] - 16, mem - 16;
              && p in old(held) && p' in held && p' !in old(held) - {p} && held == (old(held) - {p})[p' := held[p']] && nb <= held[p']
              && Copied(old(want), want, p, p', Min(old(held)[p], held[p'])) && Kept(old(want), want, old(held) - {p})
    {
      hide Sound, Kept, LiveOf, Quiet, Resized, Copied, Overlay, FastEmpty, Mem.Size;
      ghost var p, p' := ptrs[k] - 16, mem - 16;
      ResizedHeld(s0, av.S(), held, want, p, p', nb);
      held, want := (held - {p})[p' := LiveOf(av.H)[p']], Overlay(want, av.m, p', LiveOf(av.H)[p']);
      ptrs := ptrs[k := mem];
    }

    /** realloc: the contents of the block are kept as far as they fit, those of the others entirely. With size 0
        the block is freed. */
    method DoRealloc(k: nat, bytes: nat) returns (mem: int, ghost c: Course)
      requires Consistent() && k < |ptrs| && ptrs[k] != NULL
      modifies this, av
      ensures Consistent() && (old(av.Recorded()) ==> av.Recorded())
      ensures old(ptrs)[k] - 16 in LiveOf(old(av.H)) && Reallocs(ConfigOf(av), old(Snap(av)), Snap(av), old(ptrs)[k], bytes, mem, c)
      ensures if bytes == 0 then Released(old(Now()), Now(), k)
              else if mem == NULL then Same(old(Now()), Now())
              else Reshaped(old(Now()), Now(), k, bytes) && ptrs[k] == mem
    {
      hide Sound, Kept, LiveOf, Quiet, Undisturbed, Handed, Freed, Resized, Copied, Overlay, Reallocs, FastEmpty, Mem.Size;
      ghost var s0 := av.S();
      HeldLive(held, LiveOf(av.H), ptrs[k] - 16);
      mem, c := LibcRealloc(av, ptrs[k], bytes);
      ghost var p, p' := ptrs[k] - 16, mem - 16;
      if bytes == 0 {
        FreedHeld(s0, av.S(), held, want, p);
        held := held - {p};
        ptrs := ptrs[k := NULL];
        return;
      }
      if mem == NULL {
        Unmoved(s0, av.S());
        return;
      }
      Request2SizeIsLeast(bytes, 0);
      Rehold(k, mem, s0, Request2Size(bytes));
    }

    /** A store to a usable word of a block, the one it shares with its neighbour included. */
    method DoWrite(k: nat, even: bool, offset: nat, v: int)
      requires Consistent() && k < |ptrs| && ptrs[k] != NULL && UserWord(ptrs[k] - 16, held[ptrs[k] - 16], even, ptrs[k] + offset)
      modifies this, av`m
      ensures Consistent() && held == old(held) && ptrs == old(ptrs) && want == old(Store(want, even, ptrs[k] + offset, v))
      ensures Snap(av) == old(Snap(av)).(s := old(av.S()).(m := old(Store(av.m, even, ptrs[k] + offset, v))))
    {
      hide Sound, Kept, LiveOf, Quiet, FastEmpty, Mem.Size;
      ghost var p, s := ptrs[k] - 16, av.S();
      var a := ptrs[k] + offset;
      StoreSound(av.S(), p, held, even, a, v);
      StoreKept(want, av.m, held, p, even, a, v);
      av.m := Store(av.m, even, a, v);
      want := Store(want, even, a, v);
      SameTop(s, av.S());
    }

    /** A load from a usable word: it yields what was stored there last. */
    method DoRead(k: nat, even: bool, offset: nat) returns (v: int)
      requires Consistent() && k < |ptrs| && ptrs[k] != NULL && UserWord(ptrs[k] - 16, held[ptrs[k] - 16], even, ptrs[k] + offset)
      ensures v == if even then want.e(ptrs[k] + offset) else want.o(ptrs[k] + offset)
    {
      hide Sound;
      assert SameUser(want, av.m, ptrs[k] - 16, held[ptrs[k] - 16]);
      v := if even then av.m.e(ptrs[k] + offset) else av.m.o(ptrs[k] + offset);
    }

    /** `malloc_trim`: nothing the client holds changes. That it makes the arena grow is the only way in which
        growth can go unrecorded. */
    method DoTrim(pad: nat) returns (r: bool, ghost topSize: int)
      requires Consistent() && pad < WORD && !Overdrawing(pad)
      modifies av
      ensures Consistent() && FastEmpty(av.H, NFASTBINS) && SameCached(old(av.H), av.H) && Same(old(Now()), Now())
      ensures Trimmed(av.answers, old(BooksOf(av)), BooksOf(av), pad, r, topSize)
      ensures old(av.Recorded()) ==> (av.Recorded() <==> av.systemMem <= av.maxSystemMem)
      ensures av.systemMem <= old(av.systemMem) && old(av.Recorded()) ==> av.Recorded()
    {
      hide Sound, Kept, LiveOf, Quiet, FastEmpty, SameCached, Trimmed, Mem.Size;
      ghost var s0 := av.S();
      r, topSize := Mtrim(av, pad);
      SameUndisturbed(s0, av.S());
      Unmoved(s0, av.S());
    }
  }

  lemma SameUndisturbed(s0: State, s1: State)
    requires LiveOf(s1.H) == LiveOf(s0.H) && Kept(s0.m, s1.m, LiveOf(s1.H))
    ensures Undisturbed(s0, s1)
  {}

  lemma HoldFacts(s0: State, s1: State, held: map<int, int>, want: Mem, p: int, n: int, nb: int)
    requires Sound(s1) && Within(held, LiveOf(s0.H)) && Kept(want, s0.m, held) && Handed(s0, s1, p, nb) && n == LiveOf(s1.H)[p]
    ensures p !in held && Within(held[p := n], LiveOf(s1.H)) && Kept(Overlay(want, s1.m, p, n), s1.m, held[p := n])
    ensures Kept(want, Overlay(want, s1.m, p, n), held)
  {
    hide LiveOf, SameUser, Sound, Overlay;
    KeptSub(s0.m, s1.m, LiveOf(s0.H), held);
    KeptTrans(want, s0.m, s1.m, held);
    LiveSeparate(s1);
    SubSeparate(held[p := n], LiveOf(s1.H));
    OverlayKept(want, s1.m, held, p, n);
    OverlayOthers(want, s1.m, held, p, n);
  }

  lemma OverlayOthers(want: Mem, m: Mem, held: map<int, int>, p: int, n: int)
    requires Separate(held[p := n]) && p !in held
    ensures Kept(want, Overlay(want, m, p, n), held)
  {
    var h' := held[p := n];
    forall x | x in held ensures SameUser(want, Overlay(want, m, p, n), x, held[x]) {
      assert x in h' && p in h' && x != p;
    }
  }

  lemma FreedHeld(s0: State, s1: State, held: map<int, int>, want: Mem, p: int)
    requires Within(held, LiveOf(s0.H)) && Kept(want, s0.m, held) && Freed(s0, s1, p) && p in held
    ensures Within(held - {p}, LiveOf(s1.H)) && Kept(want, s1.m, held - {p})
  {
    hide LiveOf, SameUser;
    KeptSub(s0.m, s1.m, LiveOf(s1.H), held - {p});
    KeptSub(want, s0.m, held, held - {p});
    KeptTrans(want, s0.m, s1.m, held - {p});
  }

  lemma ResizedHeld(s0: State, s1: State, held: map<int, int>, want: Mem, p: int, p': int, nb: int)
    requires Sound(s1) && Within(held, LiveOf(s0.H)) && Kept(want, s0.m, held) && Resized(s0, s1, p, p', nb) && p in held
    ensures p' in LiveOf(s1.H) && p' !in held - {p}
    ensures var n := LiveOf(s1.H)[p']; var h' := (held - {p})[p' := n]; var w' := Overlay(want, s1.m, p', n);
            Within(h', LiveOf(s1.H)) && Kept(w', s1.m, h') && n >= nb && Copied(want, w', p, p', Min(held[p], n)) && Kept(want, w', held - {p})
  {
    hide LiveOf, SameUser, Sound, Overlay, Copied;
    var h0, n := held - {p}, LiveOf(s1.H)[p'];
    KeptSub(want, s0.m, held, h0);
    KeptSub(s0.m, s1.m, LiveOf(s0.H) - {p}, h0);
    KeptTrans(want, s0.m, s1.m, h0);
    LiveSeparate(s1);
    SubSeparate(h0[p' := n], LiveOf(s1.H));
    OverlayKept(want, s1.m, h0, p', n);
    OverlayOthers(want, s1.m, h0, p', n);
    KeptShrunk(want, s0.m, held, p, held[p]);
    CopiedOverlay(want, s0.m, s1.m, p, p', held[p], n);
  }

  lemma CopiedOverlay(want: Mem, m0: Mem, m1: Mem, p: int, p': int, n: int, n': int)
    requires SameUser(want, m0, p, n) && Copied(m0, m1, p, p', Min(n, n'))
    ensures Copied(want, Overlay(want, m1, p', n'), p, p', Min(n, n'))
  {
    var w', k := Overlay(want, m1, p', n'), Min(n, n');
    forall a | p' + 16 <= a <= p' + k ensures w'.e(a) == want.e(a - p' + p) {
      assert m1.e(a) == m0.e(a - p' + p);
    }
    forall a | p' + 16 <= a < p' + k ensures w'.o(a) == want.o(a - p' + p) {
      assert m1.o(a) == m0.o(a - p' + p);
    }
  }

  lemma OverlayZero(want: Mem, m: Mem, p: int, n: int)
    requires Zeroed(m, p, n)
    ensures Zeroed(Overlay(want, m, p, n), p, n)
  {}

  lemma HeldLive(held: map<int, int>, L: map<int, int>, p: int)
    requires Within(held, L) && p in held
    ensures p in L && L[p] == held[p]
  {}

  lemma StoreSound(s: State, p: int, held: map<int, int>, even: bool, a: int, v: int)
    requires Sound(s) && Within(held, LiveOf(s.H)) && p in held && UserWord(p, held[p], even, a)
    ensures Sound(s.(m := Store(s.m, even, a, v)))
  {
    hide Sound;
    WriteSound(s, Store(s.m, even, a, v), p);
  }

  // ---------------------------------------------------------------- runs

  /** Memory agrees with what the client expects, the blocks are in use, and they do not overlap. */
  ghost predicate Sane(v: View) {
    Separate(v.held) && Kept(v.want, v.Memory(), v.held) && Within(v.held, LiveOf(v.arena.s.H))
  }

  /** The views of a run of the script, from the empty client on. */
  ghost predicate Traces(cfg: Config, ops: seq<Op>, trace: seq<View>) {
    && |trace| == |ops| + 1 && trace[0].ptrs == [] && trace[0].held == map[] && trace[0].recorded
    && (forall i {:trigger trace[i]} :: 0 <= i <= |ops| ==> Sane(trace[i]))
    && forall i {:trigger ops[i]} :: 0 <= i < |ops| ==> Does(cfg, ops[i], trace[i], trace[i + 1])
  }

  /** Every run from malloc_init_state: for any script, and any sequence of answers of the system, each operation
      does what it is to do, and the heap is sound all along. No check fires on the way. */
  method Run(cfg: Config, start: int, ops: seq<Op>) returns (c: Client, ghost trace: seq<View>)
    requires start >= HEAP_MIN
    ensures fresh(c) && fresh(c.av) && c.Consistent() && Traces(cfg, ops, trace) && trace[|ops|] == c.Now() && ConfigOf(c.av) == cfg
  {
    hide Does, Kept, Separate, Sound, Quiet, LiveOf, FastEmpty;
    c := new Client(cfg.key, cfg.unsortedLimit, cfg.smallBins, cfg.maxBytes, start, cfg.answers);
    trace := [c.Now()];
    NowSane(c);
    var i := 0;
    while i < |ops|
      invariant 0 <= i <= |ops| && fresh(c) && fresh(c.av) && c.Consistent()
      invariant Traces(cfg, ops[..i], trace) && trace[i] == c.Now() && ConfigOf(c.av) == cfg
      modifies c, c.av
    {
      Step(c, ops[i]);
      NowSane(c);
      TraceMore(cfg, ops[..i], trace, ops[i], c.Now());
      assert ops[..i] + [ops[i]] == ops[..i + 1];
      trace := trace + [c.Now()];
      i := i + 1;
    }
    assert ops[..|ops|] == ops;
  }

  lemma NowSane(c: Client)
    requires c.Consistent()
    ensures Sane(c.Now())
  {
    hide Sound, LiveOf, Kept, Separate;
    LiveSeparate(c.av.S());
    SubSeparate(c.held, LiveOf(c.av.H));
  }

  lemma TraceMore(cfg: Config, ops: seq<Op>, trace: seq<View>, op: Op, v: View)
    requires Traces(cfg, ops, trace) && Sane(v) && Does(cfg, op, trace[|ops|], v)
    ensures Traces(cfg, ops + [op], trace + [v])
  {
    hide Does, Sane;
    var ops', trace' := ops + [op], trace + [v];
    forall i | 0 <= i <= |ops'| ensures Sane(trace'[i]) {
      assert i <= |ops| ==> trace'[i] == trace[i];
    }
    forall i | 0 <= i < |ops'| ensures Does(cfg, ops'[i], trace'[i], trace'[i + 1]) {
      assert i < |ops| ==> ops'[i] == ops[i];
    }
  }

  /** A store is made only if it is to a usable word of a block. */
  method StepWrite(c: Client, k: nat, even: bool, offset: nat, value: int)
    requires c.Consistent()
    modifies c, c.av
    ensures c.Consistent() && Does(ConfigOf(c.av), Write(k, even, offset, value), old(c.Now()), c.Now())
  {
    hide Sound, Kept, LiveOf, Quiet, FastEmpty, Mem.Size;
    if k < |c.ptrs| && c.ptrs[k] != NULL {
      var size := c.av.m.Size(c.ptrs[k] - 16);
      SizeHeld(c.av.S(), c.held, c.ptrs[k] - 16);
      if UserWord(c.ptrs[k] - 16, size, even, c.ptrs[k] + offset) {
        c.DoWrite(k, even, offset, value);
      }
    }
  }

  /** One operation of a script; a request that names no block in use does nothing. */
  method Step(c: Client, op: Op)
    requires c.Consistent()
    modifies c, c.av
    ensures c.Consistent() && Does(ConfigOf(c.av), op, old(c.Now()), c.Now())
  {
    hide Sound, Kept, LiveOf, Quiet, Copied, Came, Same, Released, Reshaped, Trimmed;
    hide Zeroed, Mallocs, Callocs, Memaligns, Reallocs, Frees, FastEmpty, SameCached, Mem.Size, IsPowerOf2;
    match op {
      case Malloc(bytes) =>
        ghost var course;
        var mem;
        mem, course := c.DoMalloc(bytes);
      case Calloc(n, elemSize) =>
        ProductNat(n, elemSize);
        ghost var course;
        var mem;
        mem, course := c.DoCalloc(n, elemSize);
      case Memalign(alignment, bytes) =>
        if !Wrapping(alignment, bytes) {
          ghost var course, rounded;
          var mem;
          mem, course, rounded := c.DoMemalign(alignment, bytes);
        }
      case Realloc(k, bytes) =>
        if k < |c.ptrs| && c.ptrs[k] != NULL {
          ghost var course;
          var mem;
          mem, course := c.DoRealloc(k, bytes);
        }
      case Free(k) =>
        if k < |c.ptrs| && c.ptrs[k] != NULL {
          c.DoFree(k);
        }
      case Write(k, even, offset, value) =>
        StepWrite(c, k, even, offset, value);
      case Trim(pad) =>
        if pad < WORD && !Overdrawing(pad) {
          ghost var topSize;
          var r;
          r, topSize := c.DoTrim(pad);
        }
    }
  }

  lemma SizeHeld(s: State, held: map<int, int>, p: int)
    requires Sound(s) && Quiet(s.H) && Within(held, LiveOf(s.H)) && p in held
    ensures s.m.Size(p) == held[p]
  {
    hide LiveOf, Sound;
    ReallocGuards(s, p);
  }

  // ---------------------------------------------------------------- what runs show

  /** The operation writes to block `p`, resizes it or frees it. */
  predicate Touches(op: Op, v: View, p: int) {
    match op
    case Realloc(k, _) => k < |v.ptrs| && v.ptrs[k] == p + 16
    case Free(k) => k < |v.ptrs| && v.ptrs[k] == p + 16
    case Write(k, _, _, _) => k < |v.ptrs| && v.ptrs[k] == p + 16
    case _ => false
  }

  lemma StepKeepsBlock(cfg: Config, op: Op, v: View, v': View, p: int)
    requires Sane(v) && Does(cfg, op, v, v') && p in v.held && !Touches(op, v, p)
    ensures p in v'.held && v'.held[p] == v.held[p] && SameUser(v.want, v'.want, p, v.held[p])
  {
    hide Mallocs, Callocs, Memaligns, Reallocs, Frees, Trimmed, Zeroed, LiveOf, FastEmpty, SameCached, Copied, IsPowerOf2;
    if op.Write? && Writable(v, op.k, op.even, op.offset) {
      var q := v.ptrs[op.k] - 16;
      assert q in v.held && p in v.held && p != q;
    } else if !Same(v, v') && (op.Malloc? || op.Calloc? || op.Memalign?) {
      assert SameUser(v.want, v'.want, p, v.held[p]);
    } else if !Same(v, v') && op.Realloc? && op.bytes > 0 {
      assert p in v.held - {v.ptrs[op.k] - 16};
      assert SameUser(v.want, v'.want, p, (v.held - {v.ptrs[op.k] - 16})[p]);
    }
  }

  /** A block that no operation between two views is about stays where it is, of the same size, and every
      usable word of it reads the same in the memory there is, whatever was allocated, moved, freed, merged
      and trimmed meanwhile. */
  lemma {:induction false} RunKeepsBlock(cfg: Config, ops: seq<Op>, trace: seq<View>, i: nat, j: nat, p: int)
    requires Traces(cfg, ops, trace) && i <= j <= |ops| && p in trace[i].held
    requires forall k {:trigger ops[k]} :: i <= k < j ==> !Touches(ops[k], trace[k], p)
    ensures p in trace[j].held && trace[j].held[p] == trace[i].held[p]
    ensures SameUser(trace[i].want, trace[j].want, p, trace[i].held[p]) && SameUser(trace[i].Memory(), trace[j].Memory(), p, trace[i].held[p])
    decreases j
  {
    hide Does, Touches;
    var n := trace[i].held[p];
    if i < j {
      RunKeepsBlock(cfg, ops, trace, i, j - 1, p);
      assert Does(cfg, ops[j - 1], trace[j - 1], trace[j]);
      StepKeepsBlock(cfg, ops[j - 1], trace[j - 1], trace[j], p);
      assert Sane(trace[i]) && Sane(trace[j]);
      assert SameUser(trace[i].want, trace[i].Memory(), p, trace[i].held[p]);
      assert SameUser(trace[j].want, trace[j].Memory(), p, trace[j].held[p]);
    }
  }

  /** What a client stores in a usable word is what the word reads as long as it neither writes to the block
      nor resizes or frees it. */
  lemma StoredStays(cfg: Config, ops: seq<Op>, trace: seq<View>, i: nat, j: nat)
    requires Traces(cfg, ops, trace) && i < j <= |ops| && ops[i].Write? && Writable(trace[i], ops[i].k, ops[i].even, ops[i].offset)
    requires forall k {:trigger ops[k]} :: i < k < j ==> !Touches(ops[k], trace[k], trace[i].ptrs[ops[i].k] - 16)
    ensures var a := trace[i].ptrs[ops[i].k] + ops[i].offset;
            (if ops[i].even then trace[j].Memory().e(a) else trace[j].Memory().o(a)) == ops[i].value
  {
    hide Touches;
    var p, a := trace[i].ptrs[ops[i].k] - 16, trace[i].ptrs[ops[i].k] + ops[i].offset;
    assert Does(cfg, ops[i], trace[i], trace[i + 1]);
    RunKeepsBlock(cfg, ops, trace, i + 1, j, p);
    assert Sane(trace[i + 1]);
    assert SameUser(trace[i + 1].want, trace[i + 1].Memory(), p, trace[i + 1].held[p]);
  }

  /** As long as no trim makes the arena grow, all growth is recorded. */
  lemma {:induction false} AllRecorded(cfg: Config, ops: seq<Op>, trace: seq<View>, j: nat)
    requires Traces(cfg, ops, trace) && j <= |ops|
    requires forall i {:trigger ops[i]} :: 0 <= i < j && ops[i].Trim? ==> trace[i + 1].arena.books.systemMem <= trace[i].arena.books.systemMem
    ensures trace[j].recorded
    decreases j
  {
    if j > 0 {
      AllRecorded(cfg, ops, trace, j - 1);
      assert Does(cfg, ops[j - 1], trace[j - 1], trace[j]);
    }
  }

  /** The newest block of the later view reads as zeros. */
  ghost predicate NewZeroed(v: View, v': View) {
    |v'.ptrs| > |v.ptrs| && var p := v'.ptrs[|v.ptrs|] - 16; p in v'.held && Zeroed(v'.Memory(), p, v'.held[p])
  }

  lemma CallocZeroes(cfg: Config, op: Op, v: View, v': View)
    requires Does(cfg, op, v, v') && op.Calloc? && |v'.ptrs| > |v.ptrs| && v.recorded && Sane(v')
    ensures NewZeroed(v, v')
  {
    hide Callocs, Zeroed, Separate;
    var p := v'.ptrs[|v.ptrs|] - 16;
    assert SameUser(v'.want, v'.Memory(), p, v'.held[p]);
    ZeroedSame(v'.want, v'.Memory(), p, v'.held[p]);
  }

  /** And then every word of every block that calloc hands out is zero. */
  lemma CallocsZero(cfg: Config, ops: seq<Op>, trace: seq<View>, j: nat)
    requires |trace| == |ops| + 1 && j < |ops| && ops[j].Calloc? && |trace[j + 1].ptrs| > |trace[j].ptrs|
    requires forall i {:trigger ops[i]} :: 0 <= i < j && ops[i].Trim? ==> trace[i + 1].arena.books.systemMem <= trace[i].arena.books.systemMem
    requires Traces(cfg, ops, trace)
    ensures NewZeroed(trace[j], trace[j + 1])
  {
    hide Does, Sane, NewZeroed;
    AllRecorded(cfg, ops, trace, j);
    assert Does(cfg, ops[j], trace[j], trace[j + 1]) && Sane(trace[j + 1]);
    CallocZeroes(cfg, ops[j], trace[j], trace[j + 1]);
  }

  lemma ZeroedSame(m: Mem, m': Mem, p: int, n: int)
    requires Zeroed(m, p, n) && SameUser(m, m', p, n)
    ensures Zeroed(m', p, n)
  {
    forall a | p + 16 <= a <= p + n ensures m'.e(a) == 0 {
      assert m.e(a) == 0;
    }
    forall a | p + 16 <= a < p + n ensures m'.o(a) == 0 {
      assert m.o(a) == 0;
    }
  }

  // ---------------------------------------------------------------- what is freed comes back

  /** Bin t of the cache takes a block and gives the same one back. */
  lemma PutThenHit(cfg: Config, a0: Snapshot, a1: Snapshot, a2: Snapshot, p: int, nb: int, mem: int)
    requires p in a0.s.H && PutIn(cfg, a0, a1, CacheBin(nb), p) && CacheBin(nb) < TCACHE_SMALL_BINS && Hits(a1, a2, nb, mem)
    ensures mem == p + 16
  {
    hide BestCached, TakenOut, Entries;
    var l := TList(CacheBin(nb));
    assert Entries(a1.s.H, l) == [p] + Entries(a0.s.H, l);
    assert Entries(a1.s.H, l) == [mem - 16] + Entries(a2.s.H, l);
    assert Entries(a1.s.H, l)[0] == p && Entries(a1.s.H, l)[0] == mem - 16;
  }

  /** A small block is freed while its bin of the cache has a free slot, and the next operation is a malloc for a
      request of just its size: it is the same block. */
  lemma FreedComesBack(cfg: Config, ops: seq<Op>, trace: seq<View>, i: nat)
    requires |trace| == |ops| + 1 && i + 1 < |ops| && ops[i].Free? && ops[i + 1].Malloc?
    requires var k, v := ops[i].k, trace[i];
             && k < |v.ptrs| && v.ptrs[k] != NULL && v.ptrs[k] - 16 in v.held && CacheTakes(cfg, v.arena, v.held[v.ptrs[k] - 16])
             && CacheBin(v.held[v.ptrs[k] - 16]) < TCACHE_SMALL_BINS
             && ops[i + 1].bytes <= PTRDIFF_MAX && Request2Size(ops[i + 1].bytes) == v.held[v.ptrs[k] - 16]
    requires Traces(cfg, ops, trace)
    ensures trace[i + 2].ptrs == trace[i + 1].ptrs + [trace[i].ptrs[ops[i].k]]
  {
    hide Does, Mallocs, Separate, Kept, Request2Size;
    assert Does(cfg, ops[i], trace[i], trace[i + 1]) && Does(cfg, ops[i + 1], trace[i + 1], trace[i + 2]);
    assert Sane(trace[i]);
    FreeMalloc(cfg, ops[i], ops[i + 1], trace[i], trace[i + 1], trace[i + 2]);
  }

  lemma FreeMalloc(cfg: Config, op: Op, op': Op, v0: View, v1: View, v2: View)
    requires Does(cfg, op, v0, v1) && Does(cfg, op', v1, v2) && Sane(v0) && op.Free? && op'.Malloc?
    requires op.k < |v0.ptrs| && v0.ptrs[op.k] != NULL && v0.ptrs[op.k] - 16 in v0.held
    requires var n := v0.held[v0.ptrs[op.k] - 16];
             CacheTakes(cfg, v0.arena, n) && CacheBin(n) < TCACHE_SMALL_BINS && op'.bytes <= PTRDIFF_MAX && Request2Size(op'.bytes) == n
    ensures v2.ptrs == v1.ptrs + [v0.ptrs[op.k]]
  {
    hide Separate, Kept, Request2Size, Allots, Inits, ArenaTakes, Entries, Mallocs, Frees, EntersFront;
    var p := v0.ptrs[op.k] - 16;
    var n := v0.held[p];
    FreesPut(cfg, v0.arena, v1.arena, p, n);
    var mem, c :| Mallocs(cfg, v1.arena, v2.arena, op'.bytes, mem, c) && Came(v1, v2, op'.bytes, mem);
    MallocsHit(cfg, v1.arena, v2.arena, op'.bytes, mem, c, p);
    PutThenHit(cfg, v0.arena, v1.arena, v2.arena, p, n, mem);
  }

  lemma FreesPut(cfg: Config, a0: Snapshot, a1: Snapshot, p: int, n: int)
    requires p in LiveOf(a0.s.H) && LiveOf(a0.s.H)[p] == n && Frees(cfg, a0, a1, p) && CacheTakes(cfg, a0, n)
    ensures p in a0.s.H && PutIn(cfg, a0, a1, CacheBin(n), p)
  {
    hide ArenaTakes, PutIn;
  }

  lemma MallocsHit(cfg: Config, a0: Snapshot, a1: Snapshot, bytes: nat, mem: int, c: Course, p: int)
    requires Mallocs(cfg, a0, a1, bytes, mem, c) && bytes <= PTRDIFF_MAX && Request2Size(bytes) < cfg.maxBytes && a0.s.slots != []
    requires InList(a0.s.H, p, TList(CacheBin(Request2Size(bytes)))) && a0.s.H[p].n >= Request2Size(bytes)
    ensures Hits(a0, a1, Request2Size(bytes), mem)
  {
    hide Hits, Inits, Allots, Request2Size;
  }
}
