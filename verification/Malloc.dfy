/** `_int_malloc`: exact fits first, then passes over the unsorted list, the bins and top, then the system. */
module Malloc {
  import opened Sizes
  import opened Memory
  import opened Heap
  import opened RingProofs
  import opened Arena
  import opened Free
  import opened Consolidate
  import opened System
  import opened FreeChunk
  import opened ExactFit
  import opened Unsorted
  import opened Sorting
  import opened Shelves
  import opened Search
  import opened Fit
  import opened Top
  import opened Segments
  import opened Growth

  /** A chunk in use ends at or below top. */
  lemma BelowTop(s: State, p: int)
    requires Sound(s) && p in LiveOf(s.H)
    ensures p < s.top && p >= HEAP_MIN && p % 16 == 0 && LiveOf(s.H)[p] % 16 == 0 && LiveOf(s.H)[p] >= MINSIZE
  {
    hide Links, Marks, Slots, Fresh;
    assert Placed(s.H, s.base, s.top, p);
  }

  /** A small bin that gave nothing is empty. */
  lemma SmallEmpty(s: State, nb: int)
    requires Sound(s) && nb % 16 == 0 && MINSIZE <= nb < MIN_LARGE_SIZE && s.m.Bk(Hdr(nb / 16)) == Hdr(nb / 16)
    ensures EmptyBin(s.H, nb / 16)
  {
    HeaderEmpty(s, nb / 16);
  }

  /** Consolidation binned nothing in the sorted bins. */
  lemma EmptySub(H: Heap, H': Heap, b: int)
    requires SortedSub(H, H') && EmptyBin(H, b) && b >= 2
    ensures EmptyBin(H', b)
  {
    forall q ensures !InBin(H', q, b) {
      assert !InBin(H, q, b);
    }
  }

  /** A block of the padded size nb was handed out, and nothing else that is live has changed. */
  ghost predicate Delivered(s0: State, s: State, p: int, nb: int) {
    Granted(s0.H, s.H, p, nb) && Kept(s0.m, s.m, LiveOf(s0.H)) && p != NULL
  }

  /** Moreover, if it begins where top was, all of it from the mark on is as it was. */
  ghost predicate Supplied(s0: State, s: State, p: int, nb: int) {
    Delivered(s0, s, p, nb) && (p == s0.top ==> Untouched(s.m, p, LiveOf(s.H)[p], s0.mark))
  }

  ghost predicate Unsupplied(s0: State, s: State) {
    LiveOf(s.H) == LiveOf(s0.H) && Kept(s0.m, s.m, LiveOf(s0.H))
  }

  /** Stages compose: first nothing live changed, then a block was handed out from below top. */
  lemma SuppliedLater(s0: State, s1: State, s2: State, p: int, nb: int)
    requires Unsupplied(s0, s1) && Granted(s1.H, s2.H, p, nb) && Kept(s1.m, s2.m, LiveOf(s1.H))
    requires Sound(s2) && s2.top <= s0.top
    ensures Supplied(s0, s2, p, nb) && p < s2.top
  {
    hide Sound;
    BelowTop(s2, p);
    KeptTrans(s0.m, s1.m, s2.m, LiveOf(s0.H));
  }

  lemma UnsuppliedTrans(s0: State, s1: State, s2: State)
    requires Unsupplied(s0, s1) && LiveOf(s2.H) == LiveOf(s1.H) && Kept(s1.m, s2.m, LiveOf(s1.H))
    ensures Unsupplied(s0, s2)
  {
    KeptTrans(s0.m, s1.m, s2.m, LiveOf(s0.H));
  }

  /** Or it came from top. */
  lemma SuppliedTop(s0: State, s1: State, s2: State, p: int, nb: int)
    requires Unsupplied(s0, s1) && Granted(s1.H, s2.H, p, nb) && Kept(s1.m, s2.m, LiveOf(s1.H)) && p != NULL
    requires p == s0.top ==> Untouched(s2.m, p, LiveOf(s2.H)[p], s0.mark)
    ensures Supplied(s0, s2, p, nb)
  {
    KeptTrans(s0.m, s1.m, s2.m, LiveOf(s0.H));
  }

  /** The chunk of just the padded size that is taken without a search: the newest of its fastbin, or else the
      oldest of its small bin. NULL if there is none. */
  function ExactChunk(m: Mem, nb: int): int {
    if nb <= MAX_FAST && m.e(Cell(FastIndex(nb))) != NULL then m.e(Cell(FastIndex(nb)))
    else if InSmallRange(nb) && m.Bk(Hdr(nb / 16)) != Hdr(nb / 16) then m.Bk(Hdr(nb / 16))
    else NULL
  }

  /** It was taken, and as many more of the same list or bin as the cache has room for went there; nothing
      else has changed. */
  ghost predicate ExactServed(cfg: Config, a0: Snapshot, a1: Snapshot, nb: int) {
    var m0, H0, H1, p := a0.s.m, a0.s.H, a1.s.H, ExactChunk(a0.s.m, nb);
    && a1 == a0.(s := a0.s.(m := a1.s.m, H := H1, slots := a1.s.slots))
    && (if nb <= MAX_FAST && m0.e(Cell(FastIndex(nb))) != NULL then
          FastServed(H0, H1, a0.s.slots, a1.s.slots, FastIndex(nb), p, FastIndex(nb) < cfg.smallBins)
        else
          SmallServed(H0, H1, a0.s.slots, a1.s.slots, nb / 16, p, nb / 16 - 2 < cfg.smallBins))
  }

  /** The first try: the fastbin or the small bin of just this size. A large request merges the fastbins, if
      they may hold anything. */
  method MallocExact(av: MallocState, nb: int) returns (p: int)
    requires av.Settled() && nb % 16 == 0 && nb >= MINSIZE
    modifies av`m, av`H, av`top, av`haveFastchunks, av`numSlots
    ensures av.Settled() && av.top <= old(av.top) && p == ExactChunk(old(av.m), nb)
    ensures p != NULL ==> Supplied(old(av.S()), av.S(), p, nb) && LiveOf(av.H)[p] == nb && p in old(av.H)
    ensures p != NULL ==> ExactServed(ConfigOf(av), old(Snap(av)), Snap(av), nb)
    ensures p == NULL && (InSmallRange(nb) || !old(av.haveFastchunks)) ==> Snap(av) == old(Snap(av))
    ensures p == NULL ==> Unsupplied(old(av.S()), av.S()) && (if InSmallRange(nb) then EmptyBin(av.H, nb / 16) else !av.haveFastchunks)
    ensures p == NULL ==> SameCached(old(av.H), av.H) && av.numSlots == old(av.numSlots)
    ensures |av.numSlots| == |old(av.numSlots)|
  {
    hide Sound, Kept, LiveOf, Supplied, Delivered, Unsupplied, EmptyBin, Granted, FastServed, SmallServed, SameCached, FastEmpty, Mem.Size;
    ghost var s0 := av.S();
    UnsuppliedRefl(s0);
    SlotsLength(s0);
    SameCachedRefl(s0.H);
    if nb <= MAX_FAST {
      p := MallocFast(av, nb);
      if p != NULL {
        SlotsLength(av.S());
        SuppliedLater(s0, s0, av.S(), p, nb);
        SameTop(s0, av.S());
        return;
      }
    }
    if InSmallRange(nb) {
      p := MallocSmall(av, nb);
      if p != NULL {
        SlotsLength(av.S());
        SuppliedLater(s0, s0, av.S(), p, nb);
        SameTop(s0, av.S());
        return;
      }
      SmallEmpty(av.S(), nb);
    } else {
      p := NULL;
      if av.haveFastchunks {
        MallocConsolidate(av);
        UnsuppliedTrans(s0, s0, av.S());
      }
    }
  }

  lemma UnsuppliedRefl(s: State)
    ensures Unsupplied(s, s)
  {
    KeptRefl(s.m, LiveOf(s.H));
  }

  /** Where a block came from: it was there in just the size asked for, it was cut from a free chunk or from
      top, or there was nothing of the kind, and it is from the system if there is one at all. */
  datatype Origin = Exact | FromBins | FromTop | Nowhere

  /** `p` is a smallest of the free chunks that can hold nb bytes. */
  ghost predicate SmallestFree(H: Heap, nb: int, p: int) {
    Reached(H, p) && H[p].n >= nb && forall q {:trigger Reached(H, q)} :: Reached(H, q) && H[q].n >= nb ==> H[p].n <= H[q].n
  }

  /** No free chunk can hold nb bytes. */
  ghost predicate NoneFree(H: Heap, nb: int) {
    forall q {:trigger Reached(H, q)} :: Reached(H, q) ==> H[q].n < nb
  }

  /** With the unsorted list worked off, what is best in the sorted bins is best of all. */
  lemma BestOfAll(s0: State, s: State, w: Task, p: int)
    requires Sound(s0) && Sound(s) && Worked(s0, s, w, NULL)
    ensures BestFit(s.H, w.nb, p) ==> SmallestFree(s0.H, w.nb, p) && s0.H[p].n == s.H[p].n
    ensures NoneFits(s.H, w.nb) ==> NoneFree(s0.H, w.nb)
  {
    hide Reached, Worked, Sound;
    WorkedStock(s0, s, w);
    forall q | Reached(s0.H, q) ensures q in s.H && InBin(s.H, q, s.H[q].st.b) && s.H[q].st.b >= 2 {
      Sorted(s, q);
    }
    assert BestFit(s.H, w.nb, p) ==> InStock(s.H, p);
  }

  lemma Sorted(s: State, q: int)
    requires Sound(s) && InStock(s.H, q) && !InBin(s.H, q, UNSORTED)
    ensures InBin(s.H, q, s.H[q].st.b) && s.H[q].st.b >= 2
  {
    assert BinOk(s.H, q);
  }

  /** What a pass over the unsorted list goes by in the state s, with so many chunks binned before. */
  ghost function Duty(cfg: Config, s: State, nb: int, seen: nat): Task {
    TaskOf(nb, |s.slots| > 0 && (nb - MINSIZE) / 16 < cfg.smallBins, s.slots, seen, cfg.unsortedLimit)
  }

  /** What a pass that begins in the state `stock` comes to. A chunk that comes of working off the unsorted
      list is taken. Failing that a smallest of the free chunks that fit is cut to size, and top only if none
      of them fits. */
  ghost predicate WellChosen(w: Task, stock: State, s: State, p: int, origin: Origin) {
    match origin
    case Exact => p != NULL && Worked(stock, s, w, p) && p in LiveOf(s.H) && LiveOf(s.H)[p] == w.nb
    case FromBins =>
      && Winner(stock, w) == NULL && SmallestFree(stock.H, w.nb, p) && p == Pick(stock.H, Restacked(stock, w), w.nb)
      && Remaindered(s, p, stock.H[p].n, w.nb)
    case FromTop => Winner(stock, w) == NULL && NoneFree(stock.H, w.nb) && p in LiveOf(s.H) && LiveOf(s.H)[p] == w.nb
    case Nowhere => Winner(stock, w) == NULL && NoneFree(stock.H, w.nb)
  }

  /** A chunk of n bytes was cut for a request of nb bytes. If something is left it is the first unsorted chunk,
      and for a small request it is the last remainder. */
  ghost predicate Remaindered(s: State, p: int, n: int, nb: int) {
    && p in LiveOf(s.H) && LiveOf(s.H)[p] == Fitted(n, nb)
    && (n > Fitted(n, nb) ==>
          && InBin(s.H, p + nb, UNSORTED) && s.H[p + nb].n == n - nb && s.m.Fd(Hdr(UNSORTED)) == p + nb
          && (InSmallRange(nb) ==> s.m.Head(Hdr(UNSORTED)) == p + nb))
  }

  lemma CutRemaindered(m0: Mem, s: State, p: int, n: int, nb: int)
    requires CutFrom(m0, s, p, n, nb, InSmallRange(nb))
    ensures Remaindered(s, p, n, nb)
  {}

  lemma BestIn(H: Heap, nb: int, p: int)
    ensures BestFit(H, nb, p) ==> p in H && H[p].st.Binned? && H[p].n >= nb
  {}

  lemma ServedThere(answers: nat -> Answer, scene: Scene, b1: Books, nb: int, p: int, origin: Origin)
    requires (origin.Exact? || origin.FromBins?) && p in scene.s.H && b1 == scene.books
    ensures Served(answers, scene, b1, nb, p, origin)
  {}

  lemma ServedTop(answers: nat -> Answer, scene: Scene, b1: Books, nb: int, p: int)
    requires p == scene.books.top && scene.books.topSize >= nb + MINSIZE
    requires b1 == scene.books.(top := p + nb, topSize := scene.books.topSize - nb)
    ensures Served(answers, scene, b1, nb, p, FromTop)
  {}

  lemma ServedNowhere(answers: nat -> Answer, scene: Scene, b1: Books, nb: int, p: int)
    requires scene.books.topSize < nb + MINSIZE && Grew(answers, scene.books, b1, nb, p)
    ensures Served(answers, scene, b1, nb, p, Nowhere)
  {}

  /** When nothing was found it matters little what is done then. */
  lemma ChosenNowhere(w: Task, stock: State, s: State, s': State, p: int)
    requires WellChosen(w, stock, s, NULL, Nowhere)
    ensures WellChosen(w, stock, s', p, Nowhere)
  {}

  lemma ChosenNone(w: Task, stock: State, s: State)
    requires WellChosen(w, stock, s, NULL, Nowhere)
    ensures Winner(stock, w) == NULL && NoneFree(stock.H, w.nb)
  {}

  /** The first chunk of the cache's bins, and the fastbins, are what they were. */
  lemma ListedCached(H: Heap, H': Heap)
    requires SameListed(H, H')
    ensures SameCached(H, H')
  {
    CachedFrame(H, H');
  }

  /** The state in which the choice was made, how many unsorted chunks had been binned by then, and whether
      it is the second pass. */
  datatype Scene = Scene(s: State, books: Books, seen: nat, again: bool)

  /** The call began at `at`, and nothing but consolidation and a pass that found nothing came before the choice. A
      large request is served with all fastbin chunks merged. For a small one they are merged only if they may
      exist, no free chunk and not top could serve it, and then all of them. */
  ghost predicate SceneOk(cfg: Config, at: Snapshot, scene: Scene, nb: int) {
    && Sound(scene.s) && Quiet(scene.s.H) && LiveOf(scene.s.H) == LiveOf(at.s.H) && SameCached(at.s.H, scene.s.H)
    && scene.s.base == at.s.base && scene.s.top <= at.s.top && scene.s.sbrkBase == at.s.sbrkBase && scene.s.systemMem == at.s.systemMem
    && scene.books == at.books.(top := scene.s.top, topSize := scene.s.m.Size(scene.s.top)) && scene.s.slots == at.s.slots
    && (!at.fast ==> scene.s.H == at.s.H && scene.s.top == at.s.top)
    && (!InSmallRange(nb) ==> FastEmpty(scene.s.H, NFASTBINS))
    && (if scene.again then
          InSmallRange(nb) && at.fast && FastEmpty(scene.s.H, NFASTBINS) && Hopeless(cfg, at, nb) && scene.seen == End(at.s, Duty(cfg, at.s, nb, 0), 0)
        else
          scene.seen == 0 && (InSmallRange(nb) ==> scene.s == at.s))
  }

  /** As things stand no free chunk and not top can serve the request. */
  ghost predicate Hopeless(cfg: Config, at: Snapshot, nb: int) {
    at.books.topSize < nb + MINSIZE && Winner(at.s, Duty(cfg, at.s, nb, 0)) == NULL && NoneFree(at.s.H, nb)
  }

  /** Where the block came from, and where things stand then: top is cut if it is large enough, and the system
      is asked if it is not. */
  ghost predicate Served(answers: nat -> Answer, scene: Scene, b1: Books, nb: int, p: int, origin: Origin) {
    var b0 := scene.books;
    match origin
    case FromTop => p == b0.top && b0.topSize >= nb + MINSIZE && b1 == b0.(top := p + nb, topSize := b0.topSize - nb)
    case Nowhere => b0.topSize < nb + MINSIZE && Grew(answers, b0, b1, nb, p)
    case _ => p in scene.s.H && b1 == b0
  }

  /** One call of `_int_malloc` for a request that is not too large: how the arena was at the call, when the
      choice was made and when it returned, where the block came from, and the chunk, or NULL. */
  datatype Request = Request(at: Snapshot, scene: Scene, origin: Origin, p: int, after: Snapshot)

  /** No such call was made. */
  function Idle(a: Snapshot): Request {
    Request(a, Scene(a.s, a.books, 0, false), Nowhere, NULL, a)
  }

  /** The request for nb bytes went as it is to go. A chunk of just the size in a fastbin or small bin is taken
      without a search. Failing that the unsorted list is worked off, and what that does not serve is cut
      from a smallest free chunk that fits, from top, or from what the system gives. NULL is the result exactly
      if it comes to the system and what that gives is not enough. */
  ghost predicate Answered(cfg: Config, r: Request, nb: int) {
    var exact := ExactChunk(r.at.s.m, nb);
    && SceneOk(cfg, r.at, r.scene, nb)
    && Served(cfg.answers, r.scene, r.after.books, nb, r.p, r.origin)
    && (if r.p == NULL then Unsupplied(r.at.s, r.after.s) else Delivered(r.at.s, r.after.s, r.p, nb))
    && (r.p == NULL <==> Failed(cfg, r, nb))
    && (if exact != NULL then r.p == exact && r.origin.Exact? && r.scene.s == r.at.s && ExactServed(cfg, r.at, r.after, nb)
        else WellChosen(Duty(cfg, r.scene.s, nb, r.scene.seen), r.scene.s, r.after.s, r.p, r.origin))
    && (r.origin.Nowhere? ==> FastEmpty(r.scene.s.H, NFASTBINS))
    && (!InSmallRange(nb) && !r.origin.Nowhere? ==> FastEmpty(r.after.s.H, NFASTBINS) && !r.after.fast)
  }

  /** Nothing free and not top could serve the request, and what the system was to give was not enough. */
  ghost predicate Failed(cfg: Config, r: Request, nb: int) {
    r.origin.Nowhere? && !Enough(Outlook(cfg.answers, r.scene.books, nb), nb)
  }

  /** One pass of the outer loop, up to the point where only more memory could help. */
  method MallocPass(av: MallocState, nb: int, idx: int, stash: bool, unsortedCount0: nat)
    returns (p: int, unsortedCount: nat, ghost origin: Origin)
    requires av.Settled() && nb % 16 == 0 && nb >= MINSIZE && idx == BinIndex(nb)
    requires stash <==> |av.numSlots| > 0 && (nb - MINSIZE) / 16 < av.tcacheSmallBins
    requires |av.numSlots| == 0 || |av.numSlots| == TCACHE_MAX_BINS
    requires InSmallRange(nb) ==> EmptyBin(av.H, nb / 16)
    modifies av`m, av`H, av`top, av`binmap, av`numSlots
    ensures av.Settled() && |av.numSlots| == |old(av.numSlots)|
    ensures p != NULL ==> Supplied(old(av.S()), av.S(), p, nb) && p <= old(av.top)
    ensures p == NULL ==> Unsupplied(old(av.S()), av.S()) && av.top == old(av.top) && av.m.Size(av.top) < nb + MINSIZE
    ensures p == NULL && InSmallRange(nb) ==> EmptyBin(av.H, nb / 16)
    ensures p == NULL ==> NoneFits(av.H, nb)
    ensures origin.Nowhere? <==> p == NULL
    ensures p != NULL ==> Served(av.answers, Scene(old(av.S()), old(BooksOf(av)), unsortedCount0, false), BooksOf(av), nb, p, origin)
    ensures p == NULL ==> BooksOf(av) == old(BooksOf(av)) && SameListed(old(av.H), av.H) && av.numSlots == old(av.numSlots)
    ensures var w := Duty(ConfigOf(av), old(av.S()), nb, unsortedCount0);
            WellChosen(w, old(av.S()), av.S(), p, origin) && (p == NULL ==> unsortedCount == unsortedCount0 + End(old(av.S()), w, 0))
  {
    hide SameListed, FastEmpty, RemainderServes, CutFrom, Remaindered, Sound, Kept, LiveOf, Supplied, Unsupplied, EmptyBin, Granted;
    hide NoneFits, BestFit, Untouched, SmallestFree, NoneFree, Served, Mem.Size, Worked, Winner, End, Pick;
    ghost var s0 := av.S();
    ghost var scene := Scene(s0, BooksOf(av), unsortedCount0, false);
    ghost var w := Duty(ConfigOf(av), s0, nb, unsortedCount0);
    origin := Exact;
    UnsuppliedRefl(s0);
    p, unsortedCount := UnsortedLoop(av, nb, stash, unsortedCount0);
    SameTop(s0, av.S());
    if p != NULL {
      SuppliedLater(s0, s0, av.S(), p, nb);
      SuppliedLive(s0, av.S(), p, nb);
      ServedThere(av.answers, scene, BooksOf(av), nb, p, origin);
      return;
    }
    ghost var s1 := av.S();
    UnsuppliedTrans(s0, s0, s1);
    NothingFound(s0, s1, w);
    origin := FromBins;
    p := FitFromBins(av, nb, idx);
    SameTop(s1, av.S());
    BestIn(s1.H, nb, p);
    BestOfAll(s0, s1, w, p);
    PickRestacked(s0, s1, w);
    if p != NULL {
      ChosenIn(s0.H, nb, p);
      CutRemaindered(s1.m, av.S(), p, s1.H[p].n, nb);
      SuppliedLater(s0, s1, av.S(), p, nb);
      ServedThere(av.answers, scene, BooksOf(av), nb, p, origin);
      return;
    }
    KeptRefl(s1.m, LiveOf(s1.H));
    UnsuppliedTrans(s0, s1, av.S());
    p, origin := TryTop(av, s0, scene, nb);
  }

  lemma NothingFound(s: State, s': State, w: Task)
    requires Worked(s, s', w, NULL)
    ensures Winner(s, w) == NULL
  {}

  lemma ChosenIn(H: Heap, nb: int, p: int)
    requires SmallestFree(H, nb, p)
    ensures p in H
  {}

  /** The end of a pass: top, if it is large enough. */
  method TryTop(av: MallocState, ghost s0: State, ghost scene: Scene, nb: int) returns (p: int, ghost origin: Origin)
    requires av.Settled() && nb % 16 == 0 && nb >= MINSIZE
    requires Unsupplied(s0, av.S()) && av.top == s0.top && av.mark == s0.mark && scene.books == BooksOf(av)
    modifies av`m, av`H, av`top
    ensures av.Settled() && (origin.Nowhere? <==> p == NULL) && (origin.FromTop? || origin.Nowhere?)
    ensures p != NULL ==> Supplied(s0, av.S(), p, nb) && p <= old(av.top) && Served(av.answers, scene, BooksOf(av), nb, p, origin)
    ensures p != NULL ==> p in LiveOf(av.H) && LiveOf(av.H)[p] == nb
    ensures p == NULL ==> av.S() == old(av.S()) && av.m.Size(av.top) < nb + MINSIZE
  {
    hide Sound, Kept, LiveOf, Supplied, Unsupplied, Granted, Untouched, Served, Mem.Size, FastEmpty;
    ghost var s2 := av.S();
    p := UseTop(av, nb);
    SameTop(s2, av.S());
    TopCut(s2, av.S(), nb);
    origin := if p == NULL then Nowhere else FromTop;
    if p != NULL {
      SuppliedTop(s0, s2, av.S(), p, nb);
      SuppliedLive(s0, av.S(), p, nb);
      ServedTop(av.answers, scene, BooksOf(av), nb, p);
    }
  }

  /** Allocate: a chunk of at least the padded size, aligned, new, less than MINSIZE too large, with every
      live block left alone; or NULL with nothing changed for the client. If the block begins where top
      was, all of it from the mark on is as it was. NULL is returned exactly if the request is
      too large, or nothing free and not top can serve it and what the system gives is not enough. */
  method IntMalloc(av: MallocState, bytes: nat) returns (mem: int, ghost r: Request)
    requires av.Settled()
    modifies av
    ensures old(av.Recorded()) ==> av.Recorded()
    ensures av.Settled() && |av.numSlots| == |old(av.numSlots)|
    ensures bytes > PTRDIFF_MAX ==> mem == NULL && Snap(av) == old(Snap(av))
    ensures bytes <= PTRDIFF_MAX ==> r.at == old(Snap(av)) && r.after == Snap(av) && mem == Payload(r.p) && Answered(ConfigOf(av), r, Request2Size(bytes))
    ensures mem == NULL ==> Unsupplied(old(av.S()), av.S())
    ensures mem != NULL ==> Supplied(old(av.S()), av.S(), mem - 16, Request2Size(bytes)) && mem >= HEAP_MIN
    ensures mem == NULL <==> bytes > PTRDIFF_MAX || Failed(ConfigOf(av), r, Request2Size(bytes))
  {
    hide Sound, Kept, LiveOf, Supplied, Delivered, Unsupplied, EmptyBin, Quiet, SmallestFree, NoneFree, Request2Size, SceneOk;
    hide Mem.Size, ExactChunk, ExactServed, SameCached, FastEmpty, RemainderServes, Failed, Answered, WellChosen, Served, Pending;
    ghost var at, s0 := Snap(av), av.S();
    r := Idle(at);
    UnsuppliedRefl(s0);
    if bytes > PTRDIFF_MAX {
      return NULL, r;
    }
    var nb := Request2Size(bytes);
    Request2SizeIsLeast(bytes, nb);
    SlotsLength(s0);
    var p := MallocExact(av, nb);
    SameTop(s0, av.S());
    if p != NULL {
      SuppliedHigh(s0, av.S(), p, nb);
      SuppliedLive(s0, av.S(), p, nb);
      r := Request(at, Scene(s0, at.books, 0, false), Exact, p, Snap(av));
      AnsweredExact(ConfigOf(av), r, nb);
      AnsweredNull(ConfigOf(av), r, nb);
      return p + 16, r;
    }
    ghost var origin, scene;
    PendingNow(av, at, nb);
    p, origin, scene := MallocPasses(av, at, nb);
    r := Request(at, scene, origin, p, Snap(av));
    AnsweredNull(ConfigOf(av), r, nb);
    return Payload(p), r;
  }

  /** `chunk2mem`, and NULL for NULL. */
  function Payload(p: int): int {
    if p == NULL then NULL else p + 16
  }

  lemma AnsweredNull(cfg: Config, r: Request, nb: int)
    requires Answered(cfg, r, nb)
    ensures r.p == NULL <==> Failed(cfg, r, nb)
    ensures if r.p == NULL then Unsupplied(r.at.s, r.after.s) else Delivered(r.at.s, r.after.s, r.p, nb)
  {}

  lemma AnsweredAt(cfg: Config, r: Request, nb: int)
    requires Answered(cfg, r, nb)
    ensures SceneOk(cfg, r.at, r.scene, nb) && Served(cfg.answers, r.scene, r.after.books, nb, r.p, r.origin) && (r.p == NULL <==> Failed(cfg, r, nb))
  {}

  lemma AnsweredExact(cfg: Config, r: Request, nb: int)
    requires Sound(r.at.s) && Quiet(r.at.s.H) && r.p == ExactChunk(r.at.s.m, nb) != NULL && r.scene == Scene(r.at.s, r.at.books, 0, false) && r.origin.Exact?
    requires Delivered(r.at.s, r.after.s, r.p, nb) && r.p in LiveOf(r.after.s.H) && LiveOf(r.after.s.H)[r.p] == nb && r.p in r.at.s.H
    requires ExactServed(cfg, r.at, r.after, nb) && r.at.books.top == r.at.s.top && r.at.books.topSize == r.at.s.m.Size(r.at.s.top)
    ensures Answered(cfg, r, nb)
  {
    hide Sound, Quiet, LiveOf, FastServed, SmallServed, Delivered;
    SameCachedRefl(r.at.s.H);
  }

  /** The size of top follows from where it is. */
  lemma SameTop(s0: State, s: State)
    requires Sound(s0) && Sound(s) && s.sbrkBase == s0.sbrkBase && s.systemMem == s0.systemMem
    ensures s.top == s0.top ==> s.m.Size(s.top) == s0.m.Size(s0.top)
  {
    TopSizes(s0);
    TopSizes(s);
  }

  lemma SuppliedLive(s0: State, s: State, p: int, nb: int)
    requires Supplied(s0, s, p, nb)
    ensures p in LiveOf(s.H) && Delivered(s0, s, p, nb)
  {}

  /** The arena is as it was at `at`, or its fastbins were emptied and there was a reason to. */
  ghost predicate Pending(av: MallocState, at: Snapshot, nb: int, seen: nat, again: bool)
    reads av
  {
    && Sound(at.s) && at.books.top == at.s.top && at.books.topSize == at.s.m.Size(at.s.top) && ExactChunk(at.s.m, nb) == NULL
    && Unsupplied(at.s, av.S()) && SameCached(at.s.H, av.H) && av.numSlots == at.s.slots && av.top <= at.s.top && av.mark == at.s.mark
    && av.base == at.s.base && av.sbrkBase == at.s.sbrkBase && av.systemMem == at.s.systemMem
    && BooksOf(av) == at.books.(top := av.top, topSize := av.m.Size(av.top))
    && (!at.fast ==> av.H == at.s.H && av.top == at.s.top)
    && (if again then
          && InSmallRange(nb) && EmptyBin(av.H, nb / 16) && at.fast && !av.haveFastchunks && Hopeless(ConfigOf(av), at, nb)
          && seen == End(at.s, Duty(ConfigOf(av), at.s, nb, 0), 0)
        else
          seen == 0 && if InSmallRange(nb) then EmptyBin(av.H, nb / 16) && Snap(av) == at else !av.haveFastchunks)
  }

  /** The outer loop: a pass, a second one if there were fastbin chunks to merge, and then the system. */
  method MallocPasses(av: MallocState, ghost at: Snapshot, nb: int) returns (p: int, ghost origin: Origin, ghost scene: Scene)
    requires av.Settled() && nb % 16 == 0 && nb >= MINSIZE && (|av.numSlots| == 0 || |av.numSlots| == TCACHE_MAX_BINS)
    requires Pending(av, at, nb, 0, false)
    modifies av
    ensures old(av.Recorded()) ==> av.Recorded()
    ensures av.Settled() && |av.numSlots| == |at.s.slots| && (p != NULL ==> Supplied(at.s, av.S(), p, nb) && p >= HEAP_MIN)
    ensures Answered(ConfigOf(av), Request(at, scene, origin, p, Snap(av)), nb)
  {
    hide Sound, Kept, LiveOf, Supplied, Delivered, Unsupplied, Granted, NoneFits, Untouched, BinIndex, Quiet, SortedSub, SameFences, FastEmpty;
    hide WellChosen, Grew, SceneOk, Served, Mem.Size, Pending, Answered, SameListed, RemainderServes, Hopeless, Winner, End, NoneFree;
    ghost var s0 := at.s;
    var idx := BinIndex(nb);
    BinIndexRange(nb);
    PendingFacts(av, at, nb, 0, false);
    var stash := |av.numSlots| > 0 && (nb - MINSIZE) / 16 < av.tcacheSmallBins;
    var unsortedCount: nat := 0;
    ghost var again := false;
    while true
      invariant av.Settled() && Pending(av, at, nb, unsortedCount, again)
      invariant old(av.Recorded()) ==> av.Recorded()
      decreases av.haveFastchunks
    {
      ghost var s1, seen := av.S(), unsortedCount;
      ghost var w := Duty(ConfigOf(av), s1, nb, seen);
      scene := Scene(s1, BooksOf(av), seen, again);
      PendingFacts(av, at, nb, seen, again);
      PendingScene(av, at, nb, seen, again);
      p, unsortedCount, origin := MallocPass(av, nb, idx, stash, unsortedCount);
      if p != NULL {
        SuppliedAgain(s0, s1, av.S(), p, nb);
        SuppliedHigh(s0, av.S(), p, nb);
        ServedAgain(av.answers, scene, BooksOf(av), nb, p, origin);
        AnsweredPass(ConfigOf(av), Request(at, scene, origin, p, Snap(av)), nb);
        return;
      }
      UnsuppliedAgain(s0, s1, av.S());
      ghost var s2 := av.S();
      if av.haveFastchunks {
        ChosenNone(w, s1, s2);
        MallocConsolidate(av);
        UnsuppliedTrans(s0, s2, av.S());
        Retry(av, at, s2, nb, unsortedCount);
        again := true;
      } else {
        p := MallocGrow(av, s0, nb);
        ServedNowhere(av.answers, scene, BooksOf(av), nb, p);
        ChosenNowhere(w, s1, s2, av.S(), p);
        AnsweredPass(ConfigOf(av), Request(at, scene, origin, p, Snap(av)), nb);
        return;
      }
    }
  }

  lemma ServedAgain(answers: nat -> Answer, scene: Scene, b1: Books, nb: int, p: int, origin: Origin)
    requires Served(answers, scene.(again := false), b1, nb, p, origin)
    ensures Served(answers, scene, b1, nb, p, origin)
  {}

  lemma PendingNow(av: MallocState, at: Snapshot, nb: int)
    requires Sound(at.s) && at.books.top == at.s.top && at.books.topSize == at.s.m.Size(at.s.top) && ExactChunk(at.s.m, nb) == NULL
    requires Unsupplied(at.s, av.S()) && SameCached(at.s.H, av.H) && av.numSlots == at.s.slots && av.top <= at.s.top && av.mark == at.s.mark
    requires av.base == at.s.base && av.sbrkBase == at.s.sbrkBase && av.systemMem == at.s.systemMem
    requires BooksOf(av) == at.books.(top := av.top, topSize := av.m.Size(av.top))
    requires InSmallRange(nb) || !at.fast ==> Snap(av) == at
    requires if InSmallRange(nb) then EmptyBin(av.H, nb / 16) else !av.haveFastchunks
    ensures Pending(av, at, nb, 0, false)
  {}

  lemma PendingFacts(av: MallocState, at: Snapshot, nb: int, seen: nat, again: bool)
    requires Pending(av, at, nb, seen, again)
    ensures Sound(at.s) && Unsupplied(at.s, av.S()) && av.top <= at.s.top && av.mark == at.s.mark && av.numSlots == at.s.slots
    ensures av.base == at.s.base && av.sbrkBase == at.s.sbrkBase && av.systemMem == at.s.systemMem && ExactChunk(at.s.m, nb) == NULL
    ensures InSmallRange(nb) ==> EmptyBin(av.H, nb / 16)
    ensures av.haveFastchunks ==> InSmallRange(nb) && Snap(av) == at && seen == 0 && !again
  {}

  /** The choice is made in a state that consolidation alone may have come before. */
  lemma PendingScene(av: MallocState, at: Snapshot, nb: int, seen: nat, again: bool)
    requires av.Settled() && Pending(av, at, nb, seen, again)
    ensures SceneOk(ConfigOf(av), at, Scene(av.S(), BooksOf(av), seen, again), nb)
  {
    hide Sound, Quiet, Unsupplied, SameCached, FastEmpty, Hopeless, Mem.Size, End;
    UnsuppliedLive(at.s, av.S());
  }

  /** After a pass that found nothing the fastbins were emptied. */
  lemma Retry(av: MallocState, at: Snapshot, s2: State, nb: int, seen: nat)
    requires av.Settled() && !av.haveFastchunks && Sound(at.s) && at.books.top == at.s.top && at.books.topSize == at.s.m.Size(at.s.top)
    requires Unsupplied(at.s, av.S()) && av.numSlots == at.s.slots && av.top <= at.s.top && av.mark == at.s.mark
    requires av.base == at.s.base && av.sbrkBase == at.s.sbrkBase && av.systemMem == at.s.systemMem
    requires BooksOf(av) == at.books.(top := av.top, topSize := av.m.Size(av.top))
    requires at.fast && InSmallRange(nb) && ExactChunk(at.s.m, nb) == NULL && nb >= MINSIZE
    requires at.books.topSize < nb + MINSIZE && Winner(at.s, Duty(ConfigOf(av), at.s, nb, 0)) == NULL && NoneFree(at.s.H, nb)
    requires seen == End(at.s, Duty(ConfigOf(av), at.s, nb, 0), 0)
    requires EmptyBin(s2.H, nb / 16) && SortedSub(s2.H, av.H) && SameListed(at.s.H, s2.H) && SameCached(s2.H, av.H)
    ensures Pending(av, at, nb, seen, true)
  {
    hide Sound, Quiet, Unsupplied, SameCached, SameListed, FastEmpty, NoneFree, Winner, End, Mem.Size, EmptyBin, SortedSub;
    EmptySub(s2.H, av.H, nb / 16);
    ListedCached(at.s.H, s2.H);
    SameCachedTrans(at.s.H, s2.H, av.H);
  }

  /** What the last pass came to is what the call comes to. */
  lemma AnsweredPass(cfg: Config, r: Request, nb: int)
    requires SceneOk(cfg, r.at, r.scene, nb) && ExactChunk(r.at.s.m, nb) == NULL
    requires WellChosen(Duty(cfg, r.scene.s, nb, r.scene.seen), r.scene.s, r.after.s, r.p, r.origin) && Served(cfg.answers, r.scene, r.after.books, nb, r.p, r.origin)
    requires (if r.p == NULL then Unsupplied(r.at.s, r.after.s) else Supplied(r.at.s, r.after.s, r.p, nb)) && (r.p == NULL ==> r.origin.Nowhere?)
    requires r.origin.Nowhere? ==> FastEmpty(r.scene.s.H, NFASTBINS)
    requires !InSmallRange(nb) && !r.origin.Nowhere? ==> FastEmpty(r.after.s.H, NFASTBINS) && !r.after.fast
    ensures Answered(cfg, r, nb)
  {
    hide SceneOk, WellChosen, ExactChunk, Unsupplied, Delivered, FastEmpty, ExactServed, Enough, Outlook, Duty;
  }

  lemma TopCut(s0: State, s: State, nb: int)
    requires Sound(s0) && Sound(s) && s.sbrkBase == s0.sbrkBase && s.systemMem == s0.systemMem
    ensures s0.m.Size(s0.top) >= nb + MINSIZE && s.top == s0.top + nb && nb >= MINSIZE ==> s.m.Size(s.top) == s0.m.Size(s0.top) - nb
  {
    TopSizes(s0);
    TopSizes(s);
  }

  lemma UnsuppliedLive(s0: State, s: State)
    requires Unsupplied(s0, s)
    ensures LiveOf(s.H) == LiveOf(s0.H)
  {}

  /** More memory from the system, and the block from that. */
  method MallocGrow(av: MallocState, ghost s0: State, nb: int) returns (p: int)
    requires av.Settled() && nb % 16 == 0 && nb >= MINSIZE && av.m.Size(av.top) < nb + MINSIZE
    requires Sound(s0) && Unsupplied(s0, av.S()) && av.top <= s0.top && av.mark == s0.mark && av.sbrkBase == s0.sbrkBase && av.systemMem == s0.systemMem
    modifies av`m, av`H, av`top, av`binmap, av`haveFastchunks, av`brk, av`calls, av`systemMem, av`maxSystemMem, av`sbrkBase, av`base, av`mark
    ensures old(av.Recorded()) ==> av.Recorded()
    ensures av.Settled() && (p == NULL ==> Unsupplied(s0, av.S())) && (p != NULL ==> p >= HEAP_MIN && Supplied(s0, av.S(), p, nb))
    ensures Grew(av.answers, old(BooksOf(av)), BooksOf(av), nb, p)
  {
    hide Sound, Kept, LiveOf, Supplied, Unsupplied, Granted, Untouched, Quiet, SameCached, GapsStay;
    ghost var s2 := av.S();
    p := Sysmalloc(av, nb);
    if p == NULL {
      UnsuppliedTrans(s0, s2, av.S());
    } else {
      TopInside(s0);
      GrantedHigh(s2.H, av.S(), p, nb);
      SuppliedTop(s0, s2, av.S(), p, nb);
    }
  }

  lemma SuppliedHigh(s0: State, s: State, p: int, nb: int)
    requires Supplied(s0, s, p, nb) && Sound(s)
    ensures p >= HEAP_MIN
  {
    BelowTop(s, p);
  }

  lemma GrantedHigh(H: Heap, s: State, p: int, nb: int)
    requires Granted(H, s.H, p, nb) && Sound(s)
    ensures p >= HEAP_MIN
  {
    BelowTop(s, p);
  }

  lemma TopInside(s: State)
    requires Sound(s)
    ensures s.top != Hdr(UNSORTED) ==> s.top < s.sbrkBase + s.systemMem
  {
    if s.top != Hdr(UNSORTED) {
      TopSizeFacts(s);
    }
  }

  lemma SuppliedAgain(s0: State, s1: State, s2: State, p: int, nb: int)
    requires Unsupplied(s0, s1) && Supplied(s1, s2, p, nb) && s1.top <= s0.top && s1.mark == s0.mark && Sound(s2)
    requires p <= s1.top
    ensures Supplied(s0, s2, p, nb)
  {
    KeptTrans(s0.m, s1.m, s2.m, LiveOf(s0.H));
  }

  lemma UnsuppliedAgain(s0: State, s1: State, s2: State)
    requires Unsupplied(s0, s1) && Unsupplied(s1, s2)
    ensures Unsupplied(s0, s2)
  {
    KeptTrans(s0.m, s1.m, s2.m, LiveOf(s0.H));
  }
}
