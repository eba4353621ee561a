/** Getting memory from the system and giving it back: MORECORE, `systrim`, `sysmalloc`. */
module System {
  import opened Sizes
  import opened Memory
  import opened Heap
  import opened Steps
  import opened Arena
  import opened Free
  import opened Consolidate

  const TOP_PAD := 0
  const TRIM_THRESHOLD := 128 * 1024

  /** `MORECORE(0)`: where the break is now, after any increases by others. */
  method CurrentBreak(av: MallocState) returns (b: int)
    modifies av`brk, av`calls
    ensures b == av.brk == old(av.brk) + av.answers(old(av.calls)).moved && av.calls == old(av.calls) + 1
  {
    b := av.brk + av.answers(av.calls).moved;
    av.brk := b;
    av.calls := av.calls + 1;
  }

  /** How much of `extra` bytes offered the system takes back: whole pages, possibly none. */
  function Given(a: Answer, extra: int): int {
    if a.pages * PAGE <= extra then a.pages * PAGE else AlignDown(extra, PAGE)
  }

  lemma GivenPages(a: Answer, extra: int)
    requires extra >= 0
    ensures 0 <= Given(a, extra) <= extra && Given(a, extra) % PAGE == 0
  {
    PageTimes(a.pages);
    DownFacts(extra);
  }

  /** A negative amount is asked for instead: it is granted or refused. */
  function Yielded(a: Answer, extra: int): int {
    if extra >= 0 then Given(a, extra) else if a.refused then 0 else extra
  }

  /** `MORECORE(-extra)`. */
  method ReleaseBreak(av: MallocState, extra: int)
    modifies av`brk, av`calls
    ensures av.brk == old(av.brk) - Yielded(av.answers(old(av.calls)), extra) && av.calls == old(av.calls) + 1
  {
    av.brk := av.brk - Yielded(av.answers(av.calls), extra);
    av.calls := av.calls + 1;
  }

  /** How many values a word has. */
  const WORD := 0x1_0000_0000_0000_0000

  /** What is offered back to the system of a top of the given size. What top has beyond MINSIZE is compared
      with `pad`, and reduced by it, as an unsigned word; the result is a signed one. */
  function Offer(topSize: int, pad: int): int {
    var topArea := topSize - MINSIZE - 1;
    var unsigned := if topArea < 0 then topArea + WORD else topArea;
    if unsigned <= pad then 0
    else
      var extra := AlignDown(unsigned - pad, PAGE);
      if topArea < 0 && extra >= WORD / 2 then extra - WORD else extra
  }

  /** With more than MINSIZE in top it is whole pages of what top has beyond MINSIZE and pad. */
  lemma OfferAbove(topSize: int, pad: int)
    requires topSize > MINSIZE && pad >= 0
    ensures var area := topSize - MINSIZE - 1; Offer(topSize, pad) == if area <= pad then 0 else AlignDown(area - pad, PAGE)
    ensures Offer(topSize, pad) >= 0 && Offer(topSize, pad) % PAGE == 0 && (Offer(topSize, pad) > 0 ==> Offer(topSize, pad) < topSize - MINSIZE - pad)
  {
    DownFacts(topSize - MINSIZE - 1 - pad);
  }

  /** With just MINSIZE in top, a pad of less than half the words makes the code ask for more than the pad
      instead; one of more than that makes it offer what top has not got, unless it is among the last 4096. */
  lemma OfferAtLeast(pad: int)
    requires 0 <= pad < WORD
    ensures Offer(MINSIZE, pad) < 0 <==> pad < WORD / 2
    ensures Offer(MINSIZE, pad) > 0 <==> Overdrawing(pad)
    ensures Offer(MINSIZE, pad) % PAGE == 0 && (pad < WORD / 2 ==> pad < -Offer(MINSIZE, pad) <= pad + PAGE)
    ensures Overdrawing(pad) ==> Offer(MINSIZE, pad) >= PAGE
  {
    DownFacts(WORD - 1 - pad);
    PageSum(AlignDown(WORD - 1 - pad, PAGE), WORD);
    if WORD - 1 - pad >= WORD / 2 {
      DownAbove(WORD - 1 - pad, WORD / 2);
    }
    if WORD - 1 - pad >= PAGE {
      DownAbove(WORD - 1 - pad, PAGE);
    } else {
      DownBelow(WORD - 1 - pad);
    }
  }

  lemma DownAbove(x: int, y: int)
    requires x >= y && y % PAGE == 0
    ensures AlignDown(x, PAGE) >= y
  {
    DownFacts(x);
    PageSum(AlignDown(x, PAGE), y);
    var d := AlignDown(x, PAGE) - y;
    assert d == PAGE * (d / PAGE) && d > -PAGE;
  }

  lemma DownBelow(x: int)
    requires 0 <= x < PAGE
    ensures AlignDown(x, PAGE) == 0
  {}

  predicate Overdrawing(pad: int) {
    WORD / 2 <= pad <= WORD - 1 - PAGE
  }

  /** What follows after `extra` bytes at the end of the arena were to be given back: nothing is done if
      that is none, or if the break is no longer where the arena ends. */
  ghost predicate TrimDone(answers: nat -> Answer, calls: nat, brk: int, end: int, extra: int, calls': nat, brk': int, released: int) {
    var found := brk + answers(calls).moved;
    if extra == 0 then
      calls' == calls && brk' == brk && released == 0
    else if found != end then
      calls' == calls + 1 && brk' == found && released == 0
    else
      calls' == calls + 2 && released == Yielded(answers(calls + 1), extra) && brk' == end - released
  }

  /** When a chunk of the given size was freed, what is offered of a top of the given size. */
  function TrimOffer(size: int, topSize: int): int {
    if size >= 65536 && topSize >= TRIM_THRESHOLD then Offer(topSize, TOP_PAD) else 0
  }

  /** The system took away or added whole pages at the end of top. */
  lemma TopResized(s: State, delta: int)
    requires Sound(s) && s.top != Hdr(UNSORTED) && delta % PAGE == 0 && s.m.Size(s.top) + delta >= MINSIZE
    ensures var m' := s.m.SetHead(s.top, s.m.Size(s.top) + delta + 1);
            && Sound(s.(m := m', systemMem := s.systemMem + delta)) && Kept(s.m, m', LiveOf(s.H))
            && m'.Size(s.top) == s.m.Size(s.top) + delta
  {
    hide Core, Marks, Slots, Fresh;
    var n := s.m.Size(s.top);
    var m' := s.m.SetHead(s.top, n + delta + 1);
    TopSizeFacts(s);
    TopStoreCore(s, n + delta + 1);
    PageSum(s.sbrkBase + s.systemMem, delta);
    PageMultiple(s.sbrkBase + s.systemMem + delta, s.top);
    HeadDecodes(m', s.top, n + delta);
    TopKept(s, m');
  }

  lemma TopStoreCore(s: State, v: int)
    requires Sound(s) && s.top != Hdr(UNSORTED)
    ensures Core(s.m.SetHead(s.top, v), s.H, s.base, s.top)
  {
    hide Links, Marks, Slots, Fresh;
    TopSizeFacts(s);
    BoundaryOutside(s.H, s.base, s.top, s.top);
    assert s.top in s.H ==> Placed(s.H, s.base, s.top, s.top);
    LooseStores(s.m, s.m.SetHead(s.top, v), s.H, s.base, s.top, {s.top});
  }

  lemma TopSizeFacts(s: State)
    requires Sound(s) && s.top != Hdr(UNSORTED)
    ensures s.m.Size(s.top) == s.sbrkBase + s.systemMem - s.top >= MINSIZE && s.m.Size(s.top) % 16 == 0
    ensures HEAP_MIN <= s.base <= s.top && s.top % 16 == 0 && s.sbrkBase <= s.base && (s.sbrkBase + s.systemMem) % PAGE == 0
  {
    PageMultiple(s.sbrkBase + s.systemMem, s.top);
    HeadDecodes(s.m, s.top, s.sbrkBase + s.systemMem - s.top);
  }

  /** A store to the head of top touches no live block and nothing fresh. */
  lemma TopKept(s: State, m': Mem)
    requires Sound(s) && s.top != Hdr(UNSORTED)
    requires exists v :: m' == s.m.SetHead(s.top, v)
    ensures Kept(s.m, m', LiveOf(s.H)) && Fresh(m', s.mark)
  {
    hide Links, Marks, Slots;
    var L := LiveOf(s.H);
    forall p | p in L ensures SameUser(s.m, m', p, L[p]) {
      assert Placed(s.H, s.base, s.top, p);
    }
    FreshKeeps(s, m');
  }

  lemma DownFacts(x: int)
    ensures x - PAGE < AlignDown(x, PAGE) <= x && AlignDown(x, PAGE) % PAGE == 0
    ensures x >= 0 ==> AlignDown(x, PAGE) >= 0
  {
    PageTimes(x / PAGE);
    assert AlignDown(x, PAGE) == PAGE * (x / PAGE);
  }

  /** Give the end of top back to the system, all but `pad` bytes and a little more: what is offered, when,
      and how much of it goes. With just MINSIZE in top, memory is got instead. */
  method Systrim(av: MallocState, pad: int) returns (r: bool)
    requires av.Valid() && 0 <= pad < WORD && (av.m.Size(av.top) == MINSIZE ==> !Overdrawing(pad))
    modifies av`m, av`brk, av`calls, av`systemMem
    ensures av.Valid() && Kept(old(av.m), av.m, LiveOf(av.H))
    ensures av.m.Size(av.top) == old(av.m.Size(av.top)) - (old(av.systemMem) - av.systemMem)
    ensures TrimDone(av.answers, old(av.calls), old(av.brk), old(av.sbrkBase + av.systemMem), old(Offer(av.m.Size(av.top), pad)),
                     av.calls, av.brk, old(av.systemMem) - av.systemMem)
    ensures (r <==> av.systemMem != old(av.systemMem)) && (!r ==> av.m == old(av.m))
    ensures av.systemMem < old(av.systemMem) ==> pad + MINSIZE < av.m.Size(av.top)
    ensures av.systemMem > old(av.systemMem) <==>
              && old(av.m.Size(av.top)) == MINSIZE && pad < WORD / 2
              && old(av.brk) + av.answers(old(av.calls)).moved == old(av.sbrkBase + av.systemMem) && !av.answers(old(av.calls) + 1).refused
    ensures av.systemMem > old(av.systemMem) ==> pad < av.systemMem - old(av.systemMem) <= pad + PAGE
  {
    hide Sound, Kept, LiveOf, Given, AlignDown, Offer;
    ghost var s0 := av.S();
    KeptRefl(av.m, LiveOf(av.H));
    TopSizes(s0);
    var topSize := av.m.Size(av.top);
    var extra := Offer(topSize, pad);
    if topSize > MINSIZE {
      OfferAbove(topSize, pad);
    } else {
      OfferAtLeast(pad);
    }
    if extra == 0 {
      return false;
    }
    var currentBrk := CurrentBreak(av);
    if currentBrk == av.top + topSize {
      ghost var answer := av.answers(av.calls);
      if extra > 0 {
        GivenPages(answer, extra);
      }
      ReleaseBreak(av, extra);
      var newBrk := av.brk;
      var released := currentBrk - newBrk;
      if released != 0 {
        PageSum(0, released);
        TopResized(s0, -released);
        av.systemMem := av.systemMem - released;
        av.m := av.m.SetHead(av.top, topSize - released + 1);
        return true;
      }
    }
    return false;
  }

  /** Top is nowhere near the break as long as it is not a chunk. */
  lemma TopSizes(s: State)
    requires Sound(s)
    ensures var n := s.m.Size(s.top);
            if s.top == Hdr(UNSORTED) then n == 0 && s.top < HEAP_MIN && s.sbrkBase + s.systemMem == 0
            else n >= MINSIZE && s.top >= HEAP_MIN && s.top + n == s.sbrkBase + s.systemMem
  {
    if s.top != Hdr(UNSORTED) {
      TopSizeFacts(s);
    }
  }

  /** `_int_free_maybe_consolidate`: after freeing a large chunk, consolidate and trim. */
  method FreeMaybeConsolidate(av: MallocState, size: int)
    requires av.Valid() && av.top != Hdr(UNSORTED)
    modifies av`m, av`H, av`top, av`haveFastchunks, av`brk, av`calls, av`systemMem
    ensures av.Valid() && SameCached(old(av.H), av.H) && SameFences(old(av.H), av.H) && av.systemMem <= old(av.systemMem) && av.top <= old(av.top)
    ensures LiveOf(av.H) == old(LiveOf(av.H)) && Kept(old(av.m), av.m, LiveOf(av.H))
    ensures av.systemMem < old(av.systemMem) ==> av.m.Size(av.top) + (old(av.systemMem) - av.systemMem) >= TRIM_THRESHOLD
    ensures FastSub(old(av.H), av.H) && (size >= 65536 ==> FastEmpty(av.H, NFASTBINS) && !av.haveFastchunks)
    ensures size < 65536 ==> av.S() == old(av.S()) && av.haveFastchunks == old(av.haveFastchunks)
    ensures var released := old(av.systemMem) - av.systemMem;
            TrimDone(av.answers, old(av.calls), old(av.brk), old(av.sbrkBase + av.systemMem),
                     TrimOffer(size, av.m.Size(av.top) + released), av.calls, av.brk, released)
  {
    hide Sound, Kept, LiveOf, Given, AlignDown, Offer;
    ghost var s0 := av.S();
    KeptRefl(av.m, LiveOf(av.H));
    if size >= 65536 {
      if av.haveFastchunks {
        MallocConsolidate(av);
      }
      ghost var s1 := av.S();
      if av.m.Size(av.top) >= TRIM_THRESHOLD {
        TopNotInitial(s1);
        var r := Systrim(av, TOP_PAD);
        KeptTrans(s0.m, s1.m, av.m, LiveOf(av.H));
      }
    }
  }

  lemma TopNotInitial(s: State)
    requires Sound(s) && s.m.Size(s.top) > 0
    ensures s.top != Hdr(UNSORTED)
  {}
}
