/** Carving a block off the low end of top. */
module Top {
  import opened Sizes
  import opened Memory
  import opened Heap
  import opened RingProofs
  import opened LayoutProofs
  import opened Steps
  import opened Arena
  import opened Free
  import opened System
  import opened ExactFit

  /** The user words of block `p` from the mark on are what is known to be there. */
  ghost predicate Untouched(m: Mem, p: int, n: int, mark: Beyond) {
    && (forall a {:trigger m.e(a)} :: p + 16 <= a <= p + n && a >= mark.at ==> m.e(a) == mark.words.e(a))
    && (forall a {:trigger m.o(a)} :: p + 16 <= a < p + n && a >= mark.at ==> m.o(a) == mark.words.o(a))
  }

  /** The two heads written when nb bytes are cut from top. */
  function CarveWords(m: Mem, top: int, size: int, nb: int): Mem {
    m.SetHead(top, nb + 1).SetHead(top + nb, size - nb + 1)
  }

  ghost function CarveHeap(H: Heap, top: int, nb: int): Heap {
    H[top := Chunk(nb, Live)]
  }

  ghost predicate Carvable(s: State, nb: int) {
    && Sound(s) && Quiet(s.H) && s.top != Hdr(UNSORTED) && nb % 16 == 0 && nb >= MINSIZE
    && s.m.Size(s.top) >= nb + MINSIZE && s.sbrkBase + s.systemMem <= s.mark.at
  }

  lemma CarveCore(s: State, nb: int)
    requires Carvable(s, nb)
    ensures var m' := CarveWords(s.m, s.top, s.m.Size(s.top), nb);
            && s.top !in s.H && Core(m', CarveHeap(s.H, s.top, nb), s.base, s.top + nb)
  {
    hide Links, Marks, Slots, Fresh, TopOk;
    var t, size := s.top, s.m.Size(s.top);
    var m', H1 := CarveWords(s.m, t, size, nb), Carved(s.H, t, nb);
    TopSizeFacts(s);
    CarveStep(s.m, s.H, s.base, t, nb);
    RawOutside(H1, s.base, t + nb, t, t);
    BoundaryOutside(H1, s.base, t + nb, t + nb);
    assert t + nb in H1 ==> Placed(H1, s.base, t + nb, t + nb);
    LooseStores(s.m, m', H1, s.base, t + nb, {t, t + nb});
    GiveStep(m', H1, s.base, t + nb, t);
    assert CarveHeap(s.H, t, nb) == H1[t := Chunk(H1[t].n, Live)];
  }

  /** What is left of top is a top. */
  lemma CarveRest(s: State, nb: int)
    requires Carvable(s, nb)
    ensures TopOk(CarveWords(s.m, s.top, s.m.Size(s.top), nb), CarveHeap(s.H, s.top, nb), s.base, s.top + nb, s.sbrkBase, s.systemMem)
  {
    hide Core, Marks, Slots, Fresh;
    TopSizeFacts(s);
  }

  lemma CarveSound(s: State, nb: int)
    requires Carvable(s, nb)
    ensures var t := s.top; var m', H' := CarveWords(s.m, t, s.m.Size(t), nb), CarveHeap(s.H, t, nb);
            && Sound(s.(m := m', H := H', top := t + nb)) && Quiet(H') && t !in s.H && t % 16 == 0 && t >= HEAP_MIN
            && (FastEmpty(s.H, NFASTBINS) ==> FastEmpty(H', NFASTBINS))
            && LiveOf(H') == LiveOf(s.H)[t := nb] && Kept(s.m, m', LiveOf(s.H)) && SameListed(s.H, H')
  {
    hide Links, Slots, Core, FastEmpty;
    var t := s.top;
    var m', H' := CarveWords(s.m, t, s.m.Size(t), nb), CarveHeap(s.H, t, nb);
    TopSizeFacts(s);
    CarveCore(s, nb);
    CarveRest(s, nb);
    RestFrame(s.H, H', s.binmap, s.slots);
    QuietFrame(s.H, H');
    CarveKept(s, nb);
  }

  lemma CarveKept(s: State, nb: int)
    requires Carvable(s, nb)
    ensures Kept(s.m, CarveWords(s.m, s.top, s.m.Size(s.top), nb), LiveOf(s.H))
  {
    hide Links, Marks, Slots;
    var m', L := CarveWords(s.m, s.top, s.m.Size(s.top), nb), LiveOf(s.H);
    forall p | p in L ensures SameUser(s.m, m', p, L[p]) {
      assert Placed(s.H, s.base, s.top, p);
    }
  }

  lemma CarveUntouched(m: Mem, top: int, size: int, nb: int, mark: Beyond)
    requires Fresh(m, mark) && top >= HEAP_MIN
    ensures Untouched(CarveWords(m, top, size, nb), top, nb, mark)
  {}

  /** Cut nb bytes from top, which is known to be large enough. */
  method CarveTop(av: MallocState, nb: int, ghost mark: Beyond) returns (p: int)
    requires av.Valid() && Carvable(av.S(), nb) && Fresh(av.m, mark)
    modifies av`m, av`H, av`top
    ensures av.Valid() && p == old(av.top) && av.top == p + nb && Granted(old(av.H), av.H, p, nb) && LiveOf(av.H)[p] == nb
    ensures Kept(old(av.m), av.m, old(LiveOf(av.H))) && SameListed(old(av.H), av.H) && Untouched(av.m, p, nb, mark)
    ensures p !in old(av.H) && av.H == old(av.H)[p := Chunk(nb, Live)] && p != NULL && av.m.PrevInuse(p)
  {
    hide Sound, Kept, Put, SameListed, Untouched, Quiet, Fresh, FastEmpty;
    ghost var s := av.S();
    CarveSound(s, nb);
    CarvedNew(s.H, s.top, nb);
    CarveUntouched(s.m, s.top, s.m.Size(s.top), nb, mark);
    p := av.top;
    var size := av.m.Size(p);
    var remainderSize := size - nb;
    var remainder := p + nb;
    av.top := remainder;
    CutHead(av.m, p, nb, remainder, remainderSize + 1, 0, 0);
    av.m := av.m.SetHead(p, nb + 1);
    av.m := av.m.SetHead(remainder, remainderSize + 1);
    av.H := CarveHeap(av.H, p, nb);
  }

  lemma CarvedNew(H: Heap, top: int, nb: int)
    requires top !in H
    ensures top !in LiveOf(H)
  {}

  /** The last resort before sysmalloc: take the block from top if that is large enough. */
  method UseTop(av: MallocState, nb: int) returns (p: int)
    requires av.Settled() && nb % 16 == 0 && nb >= MINSIZE
    modifies av`m, av`H, av`top
    ensures av.Settled() && (p == NULL <==> old(av.m.Size(av.top)) < nb + MINSIZE)
    ensures p == NULL ==> av.S() == old(av.S())
    ensures p != NULL ==> p == old(av.top) && Granted(old(av.H), av.H, p, nb) && LiveOf(av.H)[p] == nb && av.m.PrevInuse(p) && av.top == p + nb
    ensures p != NULL ==> Kept(old(av.m), av.m, old(LiveOf(av.H))) && Untouched(av.m, p, nb, av.mark)
  {
    hide Sound, Kept, Untouched, Fresh;
    TopGuard(av.S());
    var size := av.m.Size(av.top);
    if size > av.systemMem {
      assert false; // malloc(): corrupted top size
    }
    p := NULL;
    if size >= nb + MINSIZE {
      p := CarveTop(av, nb, av.mark);
    }
  }

  lemma TopGuard(s: State)
    requires Sound(s)
    ensures Fresh(s.m, s.mark) && s.m.Size(s.top) <= s.systemMem && (s.top == Hdr(UNSORTED) ==> s.m.Size(s.top) == 0)
  {
    if s.top != Hdr(UNSORTED) {
      TopSizeFacts(s);
    }
  }
}
