/** `_int_malloc`: the best-fit search of the bins, first along the nextsize ring of the request's own
    large bin, then upwards over the binmap. */
module Search {
  import opened Memory
  import opened Heap
  import opened Steps
  import opened UnlinkProofs
  import opened Arena
  import opened Binmap
  import opened Free
  import opened Tcache
  import opened LargeBins
  import opened FreeChunk
  import opened ExactFit
  import opened ListEntries
  import opened Shelves

  /** `p` is the smallest chunk of bin b with at least nb bytes. */
  ghost predicate LeastIn(H: Heap, b: int, nb: int, p: int) {
    && InBin(H, p, b) && H[p].n >= nb
    && forall q {:trigger InBin(H, q, b)} :: InBin(H, q, b) && H[q].n >= nb ==> H[p].n <= H[q].n
  }

  /** A walk along bk_nextsize: everything smaller than the current chunk is too small. */
  ghost predicate Climbing(s: State, b: int, nb: int, v: int) {
    && Sound(s) && 64 <= b <= 126 && Lead(s.m, s.H, v, b)
    && (exists q {:trigger InBin(s.H, q, b)} :: InBin(s.H, q, b) && s.H[q].n >= nb)
    && forall q {:trigger InBin(s.H, q, b)} :: InBin(s.H, q, b) && s.H[q].n < s.H[v].n ==> s.H[q].n < nb
  }

  lemma ClimbStart(s: State, b: int, nb: int)
    requires Sound(s) && 64 <= b <= 126 && s.m.Fd(Hdr(b)) != Hdr(b) && s.m.Head(s.m.Fd(Hdr(b))) >= nb && nb % 16 == 0
    ensures Climbing(s, b, nb, s.m.BkNext(s.m.Fd(Hdr(b))))
  {
    EndsFacts(s, b);
    var f := s.m.Fd(Hdr(b));
    LeadFacts(s, b, f);
    BinSize(s, f, b);
  }

  lemma BinSize(s: State, p: int, b: int)
    requires Sound(s) && InBin(s.H, p, b)
    ensures s.m.Size(p) == s.H[p].n && s.H[p].n % 16 == 0 && p >= HEAP_MIN && s.m.Head(p) == s.H[p].n + 1 && p % 16 == 0
    ensures s.top != Hdr(UNSORTED)
  {
    ChunkSize(s, p);
    assert TagAt(s.m, s.H, s.top, p);
  }

  lemma NoFit(s: State, b: int, nb: int)
    requires Sound(s) && 64 <= b <= 126 && (s.m.Fd(Hdr(b)) == Hdr(b) || s.m.Head(s.m.Fd(Hdr(b))) < nb)
    ensures forall q {:trigger InBin(s.H, q, b)} :: InBin(s.H, q, b) ==> s.H[q].n < nb
  {
    if s.m.Fd(Hdr(b)) == Hdr(b) {
      CoreLow'(s);
      assert RingAt(s.m, s.H, b, Hdr(b)) && !InBin(s.H, Hdr(b), b);
    } else {
      EndsFacts(s, b);
      BinSize(s, s.m.Fd(Hdr(b)), b);
    }
  }

  lemma ClimbStep(s: State, b: int, nb: int, v: int)
    requires Climbing(s, b, nb, v) && s.H[v].n < nb
    ensures Climbing(s, b, nb, s.m.BkNext(v)) && s.H[s.m.BkNext(v)].n > s.H[v].n
  {
    LeadFacts(s, b, v);
    var q :| InBin(s.H, q, b) && s.H[q].n >= nb;
  }

  lemma ClimbBound(s: State, b: int, nb: int, v: int)
    requires Climbing(s, b, nb, v)
    ensures v in s.H && s.m.Size(v) == s.H[v].n && s.m.Head(v) == s.H[v].n + 1
    ensures s.m.Fd(Hdr(b)) in s.H && s.H[v].n <= s.H[s.m.Fd(Hdr(b))].n
    ensures s.H[v].n >= nb ==> LeastIn(s.H, b, nb, v)
    ensures Lead(s.m, s.H, v, b)
  {
    CoreLow'(s);
    assert RingAt(s.m, s.H, b, Hdr(b));
    assert s.m.Fd(Hdr(b)) != Hdr(b);
    EndsFacts(s, b);
    BinSize(s, v, b);
  }

  /** The second chunk of the size is as good as the first, and spares the ring. */
  lemma SecondOfSize(s: State, b: int, nb: int, v: int)
    requires Sound(s) && 64 <= b <= 126 && LeastIn(s.H, b, nb, v) && Lead(s.m, s.H, v, b)
    requires v != s.m.Bk(Hdr(b)) && s.m.Head(v) == s.m.Head(s.m.Fd(v))
    ensures LeastIn(s.H, b, nb, s.m.Fd(v)) && s.m.Fd(v) in s.H && s.H[s.m.Fd(v)].n == s.H[v].n
    ensures s.m.FdNext(s.m.Fd(v)) == NULL
  {
    hide Marks, Slots, Fresh, TopOk;
    CoreLow'(s);
    assert RingAt(s.m, s.H, b, v);
    var w := s.m.Fd(v);
    assert RingAt(s.m, s.H, b, Hdr(b));
    assert InBin(s.H, w, b);
    BinSize(s, v, b);
    BinSize(s, w, b);
    LeadFacts(s, b, v);
    assert NextSizeAt(s.m, s.H, b, w);
    BinLarge(s, w, b);
  }

  /** Otherwise it is the only chunk of its size. */
  lemma OnlyOfSize(s: State, b: int, v: int)
    requires Sound(s) && 64 <= b <= 126 && Lead(s.m, s.H, v, b)
    requires v == s.m.Bk(Hdr(b)) || s.m.Head(v) != s.m.Head(s.m.Fd(v))
    ensures SoleOfSize(s.H, b, v)
  {
    hide Sound, Core, Bypassed;
    CoreIn(s);
    BinLarge(s, v, b);
    Twin(s.m, s.H, s.base, s.top, v);
    LastNode(s, b, v);
    var w := s.m.Fd(v);
    if InBin(s.H, w, b) {
      BinSize(s, v, b);
      BinSize(s, w, b);
    }
  }

  /** The first node behind the last chunk is the header, which is not in the bin. */
  lemma LastNode(s: State, b: int, v: int)
    requires Sound(s) && 64 <= b <= 126 && InBin(s.H, v, b)
    ensures v == s.m.Bk(Hdr(b)) ==> s.m.Fd(v) == Hdr(b) && !InBin(s.H, Hdr(b), b)
  {
    CoreLow'(s);
    assert RingAt(s.m, s.H, b, Hdr(b));
  }

  /** No other chunk of bin b has the size of `p`. */
  ghost predicate SoleOfSize(H: Heap, b: int, p: int) {
    p in H && forall q {:trigger InBin(H, q, b)} :: InBin(H, q, b) && q != p ==> H[q].n != H[p].n
  }

  /** In terms of the sequence of the bin, which chunk that is. */
  lemma OwnPicked(s: State, b: int, nb: int, v: int)
    requires Sound(s) && 64 <= b <= 126 && LeastIn(s.H, b, nb, v) && Lead(s.m, s.H, v, b) && nb > 0
    ensures var w := s.m.Fd(v);
            OwnPick(s.H, BinEntries(s.H, b), nb) == if InBin(s.H, w, b) && s.H[w].n == s.H[v].n then w else v
  {
    hide BinEntries, OwnPick, Sound, Lead, Spells, BinSet;
    var L, w := BinEntries(s.H, b), s.m.Fd(v);
    SoundBins(s);
    LeadFirst(s, b, v);
    BinSpell(s.H, b);
    var i :| 0 <= i < |L| && L[i] == v;
    BinDescends(s, b, L);
    HeaderOut(s, b);
    FirstHere(s.H, b, L, i);
    OwnPickIs(s.H, L, nb, i);
    NextIs(s, b, v, i + 1);
  }

  lemma FirstHere(H: Heap, b: int, L: seq<int>, i: nat)
    requires i < |L| && Descending(H, L) && Spells(H, BinSet(H, b), L) && InBin(H, L[i], b) && FirstOfSize(H, b, L[i])
    requires forall j {:trigger L[j]} :: 0 <= j < |L| ==> InBin(H, L[j], b)
    ensures forall j {:trigger L[j]} :: 0 <= j < i ==> H[L[j]].n > H[L[i]].n
  {
    hide BinSet;
    forall j | 0 <= j < i ensures H[L[j]].n > H[L[i]].n {
      RankOrder(H, L, j, i);
    }
  }

  lemma HeaderOut(s: State, b: int)
    requires Sound(s) && 0 <= b <= 127
    ensures !InBin(s.H, Hdr(b), b) && NULL !in s.H
  {
    CoreLow'(s);
  }

  lemma BinDescends(s: State, b: int, L: seq<int>)
    requires Sound(s) && b >= 64 && Spells(s.H, BinSet(s.H, b), L) && forall i {:trigger L[i]} :: 0 <= i < |L| ==> InBin(s.H, L[i], b)
    ensures Descending(s.H, L)
  {
    hide Sound, BinSet;
    SoundSorted(s);
    forall i, j | 0 <= i < j < |L| ensures s.H[L[i]].n >= s.H[L[j]].n {
      RankOrder(s.H, L, i, j);
      assert OrdAt(s.H, L[i], L[j]);
    }
  }

  lemma NoPick(s: State, b: int, nb: int)
    requires Sound(s) && forall q {:trigger InBin(s.H, q, b)} :: InBin(s.H, q, b) ==> s.H[q].n < nb
    ensures OwnPick(s.H, BinEntries(s.H, b), nb) == NULL
  {
    hide BinEntries, Sound;
    SoundBins(s);
    BinSpell(s.H, b);
  }

  /** The scan of the request's own large bin: its smallest chunk that fits, or NULL. It is on the nextsize
      ring only if there is no other chunk of its size. */
  method LargeScan(av: MallocState, nb: int, idx: int) returns (victim: int)
    requires av.Ok() && nb % 16 == 0 && nb > 0 && 64 <= idx <= 126
    ensures victim == NULL ==> forall q {:trigger InBin(av.H, q, idx)} :: InBin(av.H, q, idx) ==> av.H[q].n < nb
    ensures victim != NULL ==> LeastIn(av.H, idx, nb, victim) && (av.m.FdNext(victim) == NULL || SoleOfSize(av.H, idx, victim))
    ensures victim == OwnPick(av.H, BinEntries(av.H, idx), nb)
  {
    hide Sound, Climbing, BinEntries, OwnPick, Lead;
    ghost var s := av.S();
    var bin := Hdr(idx);
    victim := av.m.Fd(bin);
    if victim == bin || av.m.Head(victim) < nb {
      NoFit(s, idx, nb);
      NoPick(s, idx, nb);
      return NULL;
    }
    ClimbStart(s, idx, nb);
    victim := av.m.BkNext(victim);
    ClimbBound(s, idx, nb, victim);
    while av.m.Size(victim) < nb
      invariant Climbing(s, idx, nb, victim) && victim in av.H && av.m.Size(victim) == av.H[victim].n
      decreases av.H[av.m.Fd(Hdr(idx))].n - av.H[victim].n
    {
      ClimbStep(s, idx, nb, victim);
      ClimbBound(s, idx, nb, av.m.BkNext(victim));
      victim := av.m.BkNext(victim);
    }
    ClimbBound(s, idx, nb, victim);
    OwnPicked(s, idx, nb, victim);
    if victim != av.m.Bk(bin) && av.m.Head(victim) == av.m.Head(av.m.Fd(victim)) {
      SecondOfSize(s, idx, nb, victim);
      victim := av.m.Fd(victim);
    } else {
      OnlyOfSize(s, idx, victim);
    }
    BinSize(s, victim, idx);
  }

  // ---------------------------------------------------------------- the binmap

  /** Every bin from lo up to but not including hi is empty. */
  ghost predicate EmptyRange(H: Heap, lo: int, hi: int) {
    forall q, b {:trigger InBin(H, q, b)} :: InBin(H, q, b) ==> !(lo <= b < hi)
  }

  lemma UnmarkedEmpty(s: State, b: int)
    requires Sound(s) && 2 <= b < 128 && !Marked(s.binmap, b)
    ensures EmptyBin(s.H, b)
  {
    forall q ensures !InBin(s.H, q, b) {
      assert q in s.H ==> BinOk(s.H, q);
    }
  }

  lemma HeaderEmpty(s: State, b: int)
    requires Sound(s) && 1 <= b <= 127
    ensures s.m.Bk(Hdr(b)) == Hdr(b) <==> EmptyBin(s.H, b)
    ensures s.m.Bk(Hdr(b)) != Hdr(b) ==> InBin(s.H, s.m.Bk(Hdr(b)), b)
  {
    CoreLow'(s);
    assert RingAt(s.m, s.H, b, Hdr(b)) && !InBin(s.H, Hdr(b), b);
    assert InBin(s.H, s.m.Bk(Hdr(b)), b) || s.m.Bk(Hdr(b)) == Hdr(b);
  }

  lemma RangeMore(H: Heap, lo: int, hi: int)
    requires EmptyRange(H, lo, hi) && EmptyBin(H, hi)
    ensures EmptyRange(H, lo, hi + 1)
  {
    forall q, b | InBin(H, q, b) ensures !(lo <= b < hi + 1) {
      assert !InBin(H, q, hi);
    }
  }

  /** The rest of a block is empty once the test `bit > map || bit == 0` holds, or the word is zero. */
  lemma RangeBlock(s: State, lo: int, block: int, k: nat)
    requires Sound(s) && 0 <= block < 4 && k <= 32 && 32 * block + k >= 2 && EmptyRange(s.H, lo, 32 * block + k)
    requires k == 32 || Exhausted(s.binmap[block], k) || s.binmap[block] == 0
    ensures EmptyRange(s.H, lo, 32 * block + 32)
  {
    hide Sound, Bit, Has, Exhausted;
    forall j: nat | k <= j <= 31 ensures !Has(s.binmap[block], j) {
      NoneAbove(s.binmap[block], k, j);
    }
    RangeUnset(s, lo, block, k);
  }

  lemma {:induction false} RangeUnset(s: State, lo: int, block: int, k: nat)
    requires Sound(s) && 0 <= block < 4 && k <= 32 && 32 * block + k >= 2 && EmptyRange(s.H, lo, 32 * block + k)
    requires forall j: nat {:trigger Has(s.binmap[block], j)} :: k <= j <= 31 ==> !Has(s.binmap[block], j)
    ensures EmptyRange(s.H, lo, 32 * block + 32)
    decreases 32 - k
  {
    hide Sound, Has, Marked;
    if k < 32 {
      var b := 32 * block + k;
      assert !Has(s.binmap[block], k);
      UnmarkedAt(s, block, k);
      UnmarkedEmpty(s, b);
      RangeMore(s.H, lo, b);
      RangeUnset(s, lo, block, k + 1);
    }
  }

  lemma UnmarkedAt(s: State, block: int, k: nat)
    requires 0 <= block < 4 && k < 32 && !Has(s.binmap[block], k)
    ensures !Marked(s.binmap, 32 * block + k)
  {
    hide Has;
    assert (32 * block + k) / 32 == block && (32 * block + k) % 32 == k;
  }

  lemma UnmarkSound(s: State, i: int)
    requires Sound(s) && 0 <= i < 128 && EmptyBin(s.H, i)
    ensures Sound(s.(binmap := Unmark(s.binmap, i)))
  {
    forall b, p | 2 <= b <= 126 && InBin(s.H, p, b) ensures Marked(Unmark(s.binmap, i), b) {
      MarkMarks(s.binmap, i, b);
    }
  }

  /** Where the scan stands: at bit k of a block, the word at hand being that block's, with every
      bin since the start empty. */
  ghost predicate Scanning(s: State, lo: int, block: int, k: int, map_: bv32) {
    && Sound(s) && 3 <= lo && 0 <= block < 4 && 0 <= k <= 32 && lo <= 32 * block + k
    && map_ == s.binmap[block] && EmptyRange(s.H, lo, 32 * block + k)
  }

  /** Marks were only taken off empty bins. */
  ghost predicate Pruned(before: Binmap, after: Binmap, H: Heap) {
    forall b {:trigger Marked(after, b)} :: 0 <= b < 128 ==>
      (Marked(after, b) ==> Marked(before, b)) && (Marked(before, b) && !Marked(after, b) ==> EmptyBin(H, b))
  }

  lemma ScanStart(s: State, lo: int)
    requires Sound(s) && 3 <= lo <= 127
    ensures Scanning(s, lo, lo / 32, lo % 32, s.binmap[lo / 32])
  {}

  lemma ScanBlock(s: State, lo: int, block: int, k: int, map_: bv32)
    requires Scanning(s, lo, block, k, map_) && (Exhausted(map_, k) || map_ == 0)
    ensures EmptyRange(s.H, lo, 32 * block + 32) && (block < 3 ==> Scanning(s, lo, block + 1, 0, s.binmap[block + 1]))
  {
    hide Sound, Exhausted;
    RangeBlock(s, lo, block, k);
  }

  lemma ScanSkip(s: State, lo: int, block: int, k: int, map_: bv32)
    requires Scanning(s, lo, block, k, map_) && k < 32 && !Has(map_, k)
    ensures Scanning(s, lo, block, k + 1, map_)
  {
    hide Sound, Has;
    UnmarkedAt(s, block, k);
    UnmarkedEmpty(s, 32 * block + k);
    RangeMore(s.H, lo, 32 * block + k);
  }

  lemma ScanUnmark(s: State, lo: int, block: int, k: int, map_: bv32)
    requires Scanning(s, lo, block, k, map_) && k < 32 && s.m.Bk(Hdr(32 * block + k)) == Hdr(32 * block + k)
    ensures var b' := Unmark(s.binmap, 32 * block + k);
            Scanning(s.(binmap := b'), lo, block, k + 1, b'[block]) && Pruned(s.binmap, b', s.H)
  {
    hide Sound, Marked, Unmark;
    var i := 32 * block + k;
    HeaderEmpty(s, i);
    assert i / 32 == block && i % 32 == k;
    UnmarkSound(s, i);
    RangeMore(s.H, lo, i);
    forall b | 0 <= b < 128
      ensures Marked(Unmark(s.binmap, i), b) ==> Marked(s.binmap, b)
      ensures Marked(s.binmap, b) && !Marked(Unmark(s.binmap, i), b) ==> EmptyBin(s.H, b)
    {
      MarkMarks(s.binmap, i, b);
    }
  }

  lemma PrunedTrans(b0: Binmap, b1: Binmap, b2: Binmap, H: Heap)
    requires Pruned(b0, b1, H) && Pruned(b1, b2, H)
    ensures Pruned(b0, b2, H)
  {
    forall b | 0 <= b < 128
      ensures (Marked(b2, b) ==> Marked(b0, b)) && (Marked(b0, b) && !Marked(b2, b) ==> EmptyBin(H, b))
    {
      assert Marked(b1, b) || !Marked(b1, b);
    }
  }

  lemma LastBinned(s: State, b: int)
    requires Sound(s) && 1 <= b <= 127 && s.m.Bk(Hdr(b)) != Hdr(b)
    ensures InBin(s.H, s.m.Bk(Hdr(b)), b) && b <= 126 && s.m.Bk(Hdr(b)) >= HEAP_MIN
  {
    HeaderEmpty(s, b);
    assert BinOk(s.H, s.m.Bk(Hdr(b)));
    CoreLow'(s);
  }

  /** In terms of sequences, which chunk that is. */
  lemma LastPicked(s: State, lo: int, b: int)
    requires Sound(s) && 2 <= lo <= b <= 126 && EmptyRange(s.H, lo, b) && s.m.Bk(Hdr(b)) != Hdr(b)
    ensures AbovePick(Bins(s.H), lo) == s.m.Bk(Hdr(b))
  {
    hide BinEntries, Sound;
    SoundBins(s);
    BinSpell(s.H, b);
    LastFacts(s, b);
    var L := BinEntries(s.H, b);
    var i :| 0 <= i < |L| && L[i] == s.m.Bk(Hdr(b));
    assert InBin(s.H, L[|L| - 1], b);
    RankOrder(s.H, L, i, |L| - 1);
    assert L != [] && L[|L| - 1] == s.m.Bk(Hdr(b));
    BinsEmpty(s, lo, b);
    AboveIs(Bins(s.H), lo, b);
  }

  lemma NonePicked(s: State, lo: int)
    requires Sound(s) && 2 <= lo <= 127 && EmptyRange(s.H, lo, 128)
    ensures AbovePick(Bins(s.H), lo) == NULL
  {
    hide BinEntries, Sound;
    BinsEmpty(s, lo, 127);
    AboveIs(Bins(s.H), lo, 127);
  }

  lemma BinsEmpty(s: State, lo: int, hi: int)
    requires Sound(s) && (EmptyRange(s.H, lo, hi) || (hi == 127 && EmptyRange(s.H, lo, 128)))
    ensures forall c {:trigger BinEntries(s.H, c)} :: lo <= c < hi ==> BinEntries(s.H, c) == []
  {
    hide BinEntries, Sound;
    SoundBins(s);
    forall c | lo <= c < hi ensures BinEntries(s.H, c) == [] {
      BinSpell(s.H, c);
      forall x ensures x !in BinSet(s.H, c) {
        assert InBin(s.H, x, c) ==> lo <= c < hi;
      }
      assert BinSet(s.H, c) == {};
    }
  }

  /** The rest of the block is exhausted: on to the next block with a bit set, if there is one. */
  method NextBlock(av: MallocState, ghost lo: int, block0: int, ghost k: int, map0: bv32) returns (block: int, map_: bv32)
    requires Scanning(av.S(), lo, block0, k, map0) && (Exhausted(map0, k) || map0 == 0)
    ensures block0 < block <= 4
    ensures block < 4 ==> map_ != 0 && Scanning(av.S(), lo, block, 0, map_)
    ensures block == 4 ==> EmptyRange(av.H, lo, 128)
  {
    hide Sound, Scanning, Exhausted, EmptyRange;
    ScanBlock(av.S(), lo, block0, k, map0);
    ScanRange(av.S(), lo, block0, k, map0);
    map_ := map0;
    block := block0 + 1;
    if block >= BINMAPSIZE {
      return;
    }
    map_ := av.binmap[block];
    while map_ == 0
      invariant block0 < block < 4 && Scanning(av.S(), lo, block, 0, map_)
      decreases 4 - block
    {
      ScanBlock(av.S(), lo, block, 0, map_);
      block := block + 1;
      if block >= BINMAPSIZE {
        return;
      }
      map_ := av.binmap[block];
    }
  }

  /** On to the next set bit of the word; the assertion that there is one cannot fail. */
  method NextBit(av: MallocState, ghost lo: int, ghost block: int, ghost k0: nat, bin0: int, bit0: bv32, map_: bv32)
    returns (bin: int, bit: bv32, ghost k: nat)
    requires Scanning(av.S(), lo, block, k0, map_) && !Exhausted(map_, k0) && bit0 == Bit(k0) && bin0 == Hdr(32 * block + k0)
    ensures k0 <= k < 32 && Scanning(av.S(), lo, block, k, map_) && bit == Bit(k) && bin == Hdr(32 * block + k) && Has(map_, k)
  {
    hide Sound, Scanning, Exhausted, Has, Bit, Misses, Shifted;
    bin, bit, k := bin0, bit0, k0;
    EndExhausted(map_, k);
    while Misses(bit, map_)
      invariant k0 <= k < 32 && Scanning(av.S(), lo, block, k, map_)
      invariant bit == Bit(k) && bin == Hdr(32 * block + k) && !Exhausted(map_, k)
      decreases 32 - k
    {
      Advance(map_, k);
      ScanSkip(av.S(), lo, block, k, map_);
      bin := bin + 16;
      bit := Shifted(bit);
      k := k + 1;
      if bit == 0 {
        assert false; // assert (bit != 0)
      }
    }
    HitHas(map_, k);
  }

  lemma HitHas(w: bv32, k: nat)
    requires k < 32 && !Misses(Bit(k), w)
    ensures Has(w, k)
  {}

  /** The marked bin turned out empty: clear its bit, in the local word and in the map. */
  method FalseAlarm(av: MallocState, ghost lo: int, block: int, ghost k: nat, bit: bv32, map0: bv32) returns (map_: bv32)
    requires Scanning(av.S(), lo, block, k, map0) && 0 <= block < 4 && k < 32 && bit == Bit(k)
    requires av.m.Bk(Hdr(32 * block + k)) == Hdr(32 * block + k)
    modifies av`binmap
    ensures av.Ok() && Scanning(av.S(), lo, block, k + 1, map_) && Pruned(old(av.binmap), av.binmap, av.H)
  {
    hide Sound, Scanning, Pruned, Bit, Unmark, Cleared;
    ScanUnmark(av.S(), lo, block, k, map0);
    ScanWord(av.S(), lo, block, k, map0);
    map_ := Cleared(map0, bit);
    av.binmap := av.binmap[block := map_];
    ScanSound(av.S(), lo, block, k + 1, map_);
  }

  /** The scan of the binmap for the lowest non-empty bin above `idx`: its last chunk, or NULL. It
      clears marks, but only those of empty bins. */
  method BinmapScan(av: MallocState, idx: int) returns (victim: int, ghost b: int)
    requires av.Ok() && 2 <= idx <= 126
    modifies av`binmap
    ensures av.Ok() && Pruned(old(av.binmap), av.binmap, av.H)
    ensures victim == NULL ==> EmptyRange(av.H, idx + 1, 128)
    ensures victim != NULL ==> idx < b <= 126 && EmptyRange(av.H, idx + 1, b) && InBin(av.H, victim, b) && victim == av.m.Bk(Hdr(b))
    ensures victim == AbovePick(Bins(av.H), idx + 1)
  {
    hide Sound, Scanning, Pruned, Bit, Spent, Unmark, EmptyRange, InBin, Shifted, BinEntries, AbovePick;
    ghost var lo := idx + 1;
    ghost var k := lo % 32;
    b := 0;
    ScanStart(av.S(), lo);
    var bin := Hdr(idx + 1);
    var block := (idx + 1) / 32;
    var map_ := av.binmap[block];
    var bit := Bit((idx + 1) % 32);
    PrunedRefl(av.binmap, av.H);
    while true
      invariant 0 <= block < 4 && 0 <= k <= 32 && Scanning(av.S(), lo, block, k, map_) && av.Ok()
      invariant bit == Bit(k) && bin == Hdr(32 * block + k) && Pruned(old(av.binmap), av.binmap, av.H)
      decreases 128 - (32 * block + k)
    {
      ghost var at := 32 * block + k;
      if Spent(bit, map_) {
        block, map_ := NextBlock(av, lo, block, k, map_);
        if block >= BINMAPSIZE {
          NonePicked(av.S(), idx + 1);
          return NULL, 0;
        }
        bin := Hdr(32 * block);
        bit := 1;
        k := 0;
        FirstBit();
        NotExhausted(map_, 0);
      }
      bin, bit, k := NextBit(av, lo, block, k, bin, bit, map_);
      ScanSound(av.S(), lo, block, k, map_);
      victim := av.m.Bk(bin);
      if victim == bin {
        ghost var binmap := av.binmap;
        map_ := FalseAlarm(av, lo, block, k, bit, map_);
        PrunedTrans(old(av.binmap), binmap, av.binmap, av.H);
        bin := bin + 16;
        BitNext(k);
        bit := Shifted(bit);
        k := k + 1;
      } else {
        LastBinned(av.S(), 32 * block + k);
        LastPicked(av.S(), idx + 1, 32 * block + k);
        return victim, 32 * block + k;
      }
    }
  }

  lemma ScanRange(s: State, lo: int, block: int, k: int, map_: bv32)
    requires Scanning(s, lo, block, k, map_)
    ensures 0 <= block < 4
  {}

  lemma ScanWord(s: State, lo: int, block: int, k: int, map_: bv32)
    requires Scanning(s, lo, block, k, map_) && k < 32
    ensures Unmark(s.binmap, 32 * block + k) == s.binmap[block := Cleared(map_, Bit(k))]
  {
    hide Sound, Unmark, Bit, Cleared;
    UnmarkWord(s.binmap, block, k);
  }

  lemma PrunedRefl(b: Binmap, H: Heap)
    ensures Pruned(b, b, H)
  {}

  lemma ScanSound(s: State, lo: int, block: int, k: int, map_: bv32)
    requires Scanning(s, lo, block, k, map_)
    ensures Sound(s) && lo <= 32 * block + k && EmptyRange(s.H, lo, 32 * block + k)
  {}
}
