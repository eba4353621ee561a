/** How `sysmalloc` comes out, as a function of the sizes at hand and of what the system answers. */
module Growth {
  import opened Sizes
  import opened Memory
  import opened Arena
  import opened System

  // ---------------------------------------------------------------- where the new top lies

  /** What to skip at the front of the new space. */
  function FrontSkip(brk: int): int {
    if (brk + 16) % 16 > 0 then 16 - (brk + 16) % 16 else 0
  }

  /** How much more to ask for. */
  function Correction(brk: int, size: int, oldSize: int): int {
    var c := FrontSkip(brk) + oldSize;
    c + AlignUp(brk + size + c, PAGE) - (brk + size + c)
  }

  lemma AlignUpFacts(x: int)
    ensures AlignUp(x, PAGE) % PAGE == 0 && x <= AlignUp(x, PAGE) < x + PAGE
  {}

  lemma AlignedUp(x: int)
    requires x % PAGE == 0
    ensures AlignUp(x, PAGE) == x
  {}

  lemma FrontSkipFacts(brk: int)
    ensures (brk + FrontSkip(brk)) % 16 == 0 && 0 <= FrontSkip(brk) < 16
  {}

  /** After both calls the arena ends on a page boundary, and top has what the old and the new
      space have together. */
  lemma NewSegmentFits(brk: int, size: int, oldSize: int)
    requires size >= 0 && oldSize >= 0
    ensures var c, aligned := Correction(brk, size, oldSize), brk + FrontSkip(brk); var end := brk + size + c;
            && c >= 0 && end % PAGE == 0 && brk <= aligned && aligned % 16 == 0 && (end - aligned) % 16 == 0
            && size + oldSize <= end - aligned < size + oldSize + PAGE
  {
    FrontSkipFacts(brk);
    AlignUpFacts(brk + size + FrontSkip(brk) + oldSize);
    PageMultiple(brk + size + Correction(brk, size, oldSize), brk + FrontSkip(brk));
  }

  /** Without the correction, top begins where the space on a page boundary does. */
  lemma PageStart(brk: int, size: int)
    requires size > 0 && size % PAGE == 0 && (brk + size) % PAGE == 0
    ensures FrontSkip(brk) == 0 && size >= MINSIZE && brk % PAGE == 0
  {
    EndMasked(brk, size);
    PageMultiple(brk, 0);
    SixteenSum(brk, 16);
    PageLeast(size);
  }

  lemma PageLeast(size: int)
    requires size > 0 && size % PAGE == 0
    ensures size >= PAGE
  {}

  /** The head word top gets should the second call fail: top then runs up to the current break. */
  function HeadWithout(brk: int, size: int): int {
    var d := brk + size - (brk + FrontSkip(brk));
    if d % 2 == 0 then d + 1 else d
  }

  /** What the code then reads of that top. The next call asserts that it has a legal minimum size, that
      its P bit is set and that it ends on a page boundary: all of that holds exactly if the foreign break
      was less than eight bytes past a page boundary. The size is a multiple of 16 exactly if the break was
      less than eight bytes past such a multiple, and top ends where the arena's memory ends, as
      `sbrk_base + system_mem` counts it, exactly if the break was a multiple of eight. */
  lemma WithoutCorrection(m: Mem, brk: int, size: int)
    requires size > 0 && size % PAGE == 0 && m.Head(brk + FrontSkip(brk)) == HeadWithout(brk, size)
    ensures var t := brk + FrontSkip(brk); var n := m.Size(t);
            && (n >= MINSIZE && m.PrevInuse(t) && (t + n) % PAGE == 0 <==> brk % PAGE < 8)
            && (n % 16 == 0 <==> brk % 16 < 8)
            && (t + n == brk + size <==> brk % 8 == 0)
            && (t + n == brk + size && (t + n) % PAGE == 0 <==> brk % PAGE == 0)
  {
    hide FrontSkip, HeadWithout;
    var t := brk + FrontSkip(brk);
    var n := m.Size(t);
    HeadMasked(brk, size);
    EndMasked(brk, size);
    assert t + n == brk + size - brk % 8 && n >= PAGE - 16 - 8;
  }

  /** The three low bits dropped from the head are those of the break. */
  lemma HeadMasked(brk: int, size: int)
    requires size > 0 && size % PAGE == 0
    ensures var h := HeadWithout(brk, size); h - h % 8 == size - FrontSkip(brk) - brk % 8 && h % 2 == 1
    ensures (size - FrontSkip(brk) - brk % 8) % 16 == 0 <==> brk % 16 < 8
    ensures size >= PAGE && 0 <= FrontSkip(brk) < 16
  {
    var q, r, k := brk / 16, brk % 16, size / PAGE;
    assert brk == 16 * q + r && size == PAGE * k && k >= 1;
    SixteenRest(q + 1, r);
    var a := if r == 0 then 0 else 1;
    assert FrontSkip(brk) == 16 * a - r;
    EightRest(2 * q, r);
    var z := r - r % 8;
    assert size - FrontSkip(brk) - brk % 8 == 16 * (256 * k - a) + z;
    SixteenRest(256 * k - a, z);
    assert size - FrontSkip(brk) == 8 * (2 * (256 * k - a)) + r;
    FlagMasked(2 * (256 * k - a), r);
  }

  lemma FlagMasked(j: int, r: int)
    requires 0 <= r < 16
    ensures var d := 8 * j + r; var h := if d % 2 == 0 then d + 1 else d; h - h % 8 == d - r % 8 && h % 2 == 1
  {
    EightRest(j, r);
    EightRest(j, r + 1);
    EvenRest(4 * j, r);
    EvenRest(4 * j, r + 1);
  }

  lemma EvenRest(j: int, r: int)
    ensures (2 * j + r) % 2 == r % 2
  {}

  lemma EightRest(j: int, r: int)
    ensures (8 * j + r) % 8 == r % 8
  {}

  lemma SixteenRest(j: int, r: int)
    requires 0 <= r < 16
    ensures (16 * j + r) % 16 == r
  {}

  lemma PageRest(j: int, s: int)
    requires 0 <= s < PAGE
    ensures (PAGE * j + s) % PAGE == s
  {}

  /** Up to seven bytes past a page boundary are dropped with them. */
  lemma EndMasked(brk: int, size: int)
    requires size % PAGE == 0
    ensures (brk + size - brk % 8) % PAGE == 0 <==> brk % PAGE < 8
    ensures (brk + size) % PAGE == 0 <==> brk % PAGE == 0
    ensures brk % PAGE == 0 ==> brk % 8 == 0
  {
    var j, s, k := brk / PAGE, brk % PAGE, size / PAGE;
    assert brk == PAGE * j + s;
    EightRest(512 * j, s);
    assert brk + size - brk % 8 == PAGE * (j + k) + (s - s % 8);
    assert brk + size == PAGE * (j + k) + s;
    PageRest(j + k, s - s % 8);
    PageRest(j + k, s);
  }

  // ---------------------------------------------------------------- what is left of it

  /** The second request fails only if the break is on a page boundary. Elsewhere an answer that refuses it is
      taken to meet it: what the code makes of top then, as WithoutCorrection says, is not modelled further. */
  predicate RefusesMore(a: Answer, brk: int) {
    a.refused && brk % PAGE == 0
  }

  /** The size of the new top, with the second request met or not. */
  function TopAfter(brk: int, size: int, oldSize: int, whole: bool): int {
    if whole then size + Correction(brk, size, oldSize) - FrontSkip(brk) else size
  }

  /** What the system takes of `extra` bytes, the break being where the arena ends as far as the arena knows. */
  function Shed(answers: nat -> Answer, calls: nat, extra: int): int {
    if extra == 0 || answers(calls).moved != 0 then 0 else Given(answers(calls + 1), extra)
  }

  /** What `sysmalloc` gets: nothing, or a top of the given size, with the second request met or not made,
      of which some is trimmed away again before the request that called for it is served. */
  datatype Growth = Refused | Grown(whole: bool, topSize: int, released: int)

  /** New space of the given size at `found`, where the old top ends at `oldEnd`. */
  function Extended(answers: nat -> Answer, calls: nat, found: int, oldEnd: int, oldSize: int, size: int): Growth {
    if found == oldEnd then
      Grown(true, size + oldSize, 0)
    else
      var whole := !RefusesMore(answers(calls), found + size);
      var topSize := TopAfter(found, size, oldSize, whole);
      Grown(whole, topSize, Shed(answers, calls + 1, if oldSize == 0 then 0 else TrimOffer(oldSize - 32, topSize)))
  }

  /** The first request asks for this much. */
  function Wanted(nb: int, oldSize: int): int {
    AlignUp(nb + TOP_PAD + MINSIZE - oldSize, PAGE)
  }

  function Growing(answers: nat -> Answer, calls: nat, brk: int, oldEnd: int, oldSize: int, nb: int): Growth {
    if answers(calls).refused then Refused
    else Extended(answers, calls + 1, brk + answers(calls).moved, oldEnd, oldSize, Wanted(nb, oldSize))
  }

  /** There is room for the request and the smallest chunk. */
  predicate Enough(g: Growth, nb: int) {
    g.Grown? && g.topSize - g.released >= nb + MINSIZE
  }

  /** Freeing what is left of the old top triggers a trim: others moved the break before the first request,
      but not after the second, and both what is freed and the new top are large enough. */
  predicate TrimDue(g: Growth, found: int, oldEnd: int, oldSize: int, last: Answer) {
    found != oldEnd && last.moved == 0 && oldSize - 32 >= 65536 && g.Grown? && g.topSize >= TRIM_THRESHOLD
  }

  /** With both requests met the call fails exactly if a trim of the new top is due and the system takes back
      more than that top has to spare, which is less than two pages: it always fails if two are taken. */
  lemma TrimStarves(answers: nat -> Answer, calls: nat, brk: int, oldEnd: int, oldSize: int, nb: int)
    requires nb >= MINSIZE && 0 <= oldSize < nb + MINSIZE
    ensures var g, found := Growing(answers, calls, brk, oldEnd, oldSize, nb), brk + answers(calls).moved;
            g.Grown? && g.whole ==>
              && 0 <= g.topSize - (nb + MINSIZE) < TOP_PAD + 2 * PAGE
              && (!Enough(g, nb) <==>
                  && TrimDue(g, found, oldEnd, oldSize, answers(calls + 2))
                  && Given(answers(calls + 3), Offer(g.topSize, TOP_PAD)) > g.topSize - (nb + MINSIZE))
              && (TrimDue(g, found, oldEnd, oldSize, answers(calls + 2)) && answers(calls + 3).pages >= 2 ==> !Enough(g, nb))
  {
    hide Correction, FrontSkip, AlignUp, Given, Offer, RefusesMore;
    var g, found, size := Growing(answers, calls, brk, oldEnd, oldSize, nb), brk + answers(calls).moved, Wanted(nb, oldSize);
    if g.Grown? && g.whole {
      AlignUpFacts(nb + TOP_PAD + MINSIZE - oldSize);
      NewSegmentFits(found, size, oldSize);
      if g.topSize >= TRIM_THRESHOLD {
        OfferLarge(g.topSize, answers(calls + 3));
      }
    }
  }

  /** A top at the threshold has more than two pages to offer. */
  lemma OfferLarge(topSize: int, a: Answer)
    requires topSize >= TRIM_THRESHOLD
    ensures Offer(topSize, TOP_PAD) > 2 * PAGE && 0 <= Given(a, Offer(topSize, TOP_PAD))
    ensures a.pages >= 2 ==> Given(a, Offer(topSize, TOP_PAD)) >= 2 * PAGE
  {
    var x := topSize - MINSIZE - 1 - TOP_PAD;
    DownFacts(x);
    GivenPages(a, AlignDown(x, PAGE));
  }

  /** A small request is never starved, nor any request for which the new space joins the old top. */
  lemma NotStarved(answers: nat -> Answer, calls: nat, brk: int, oldEnd: int, oldSize: int, nb: int)
    requires nb >= MINSIZE && 0 <= oldSize < nb + MINSIZE
    ensures var g := Growing(answers, calls, brk, oldEnd, oldSize, nb);
            g.Grown? && (nb + MINSIZE + TOP_PAD + 2 * PAGE <= TRIM_THRESHOLD || brk + answers(calls).moved == oldEnd) ==>
              g.released == 0 && (g.whole ==> Enough(g, nb))
  {
    hide Correction, FrontSkip, AlignUp, Given, Offer, RefusesMore;
    AlignUpFacts(nb + TOP_PAD + MINSIZE - oldSize);
    NewSegmentFits(brk + answers(calls).moved, Wanted(nb, oldSize), oldSize);
  }

  /** If the second request is refused the call may still succeed, but only if the old top had less than
      a page; it always does if there was no old top. */
  lemma WithoutSecond(answers: nat -> Answer, calls: nat, brk: int, oldEnd: int, oldSize: int, nb: int)
    requires nb >= MINSIZE && 0 <= oldSize < nb + MINSIZE
    ensures var g := Growing(answers, calls, brk, oldEnd, oldSize, nb);
            g.Grown? && !g.whole ==>
              && (Enough(g, nb) ==> oldSize < PAGE)
              && (oldSize == 0 ==> Enough(g, nb))
              && (oldSize < 65536 ==> (Enough(g, nb) <==> Wanted(nb, oldSize) >= nb + MINSIZE))
  {
    hide Correction, FrontSkip, AlignUp, Given, Offer, RefusesMore;
    AlignUpFacts(nb + TOP_PAD + MINSIZE - oldSize);
    var topSize := Wanted(nb, oldSize);
    if topSize >= TRIM_THRESHOLD {
      OfferLarge(topSize, answers(calls + 3));
    }
  }
}
