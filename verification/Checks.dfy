/** The allocator's own debugging checks, `do_check_chunk` to `do_check_malloc_state`, which read nothing but
    memory: none of their assertions can fail. */
module Checks {
  import opened Sizes
  import opened Memory
  import opened Walk
  import opened Protect
  import opened Heap
  import opened Steps
  import opened ListingProofs
  import opened Binmap
  import opened Arena
  import opened Free
  import opened Consolidate
  import opened System
  import opened Tcache
  import opened LargeBins
  import opened ExactFit
  import opened Mallinfo
  import opened Search
  import opened FreeChunk

  // ---------------------------------------------------------------- chunks

  predicate Inuse(m: Mem, p: int) {
    m.PrevInuse(p + m.Size(p))
  }

  predicate ChunkOk(m: Mem, top: int, systemMem: int, p: int) {
    if p != top then
      p >= top + m.Size(top) - systemMem && p + m.Size(p) <= top
    else
      m.Size(p) >= MINSIZE && m.PrevInuse(p)
  }

  predicate FreeChunkOk(m: Mem, top: int, systemMem: int, p: int) {
    var sz := m.Size(p);
    var next := p + sz;
    && ChunkOk(m, top, systemMem, p) && !Inuse(m, p)
    && if sz >= MINSIZE then
         && sz % 16 == 0 && (p + 16) % 16 == 0
         && m.PrevSize(next) == sz && m.PrevInuse(p) && (next == top || Inuse(m, next))
         && m.Bk(m.Fd(p)) == p && m.Fd(m.Bk(p)) == p
       else sz == 8
  }

  predicate InuseChunkOk(m: Mem, top: int, systemMem: int, p: int) {
    var next := p + m.Size(p);
    && ChunkOk(m, top, systemMem, p) && Inuse(m, p)
    && (!m.PrevInuse(p) ==>
          var prv := p - m.PrevSize(p);
          prv + m.Size(prv) == p && FreeChunkOk(m, top, systemMem, prv))
    && (if next == top then m.PrevInuse(next) && m.Size(next) >= MINSIZE
        else !Inuse(m, next) ==> FreeChunkOk(m, top, systemMem, next))
  }

  /** `do_check_remalloced_chunk` for a request of padded size n. */
  predicate RemallocedChunkOk(m: Mem, top: int, systemMem: int, p: int, n: int) {
    var sz := m.Size(p);
    InuseChunkOk(m, top, systemMem, p) && sz % 16 == 0 && sz >= MINSIZE && (p + 16) % 16 == 0 && n <= sz < n + MINSIZE
  }

  lemma PlaceOk(s: State, p: int)
    requires Sound(s) && p in s.H && !s.H[p].st.Raw? && !s.H[p].st.Gap?
    ensures ChunkOk(s.m, s.top, s.systemMem, p) && s.m.Size(p) == s.H[p].n && p != s.top && p % 16 == 0 && s.H[p].n % 16 == 0
    ensures s.top != Hdr(UNSORTED)
  {
    hide Links, Marks, Slots, Fresh;
    ChunkSize(s, p);
    TopSizeFacts(s);
    assert Placed(s.H, s.base, s.top, p);
  }

  /** What stands behind a free chunk. */
  lemma BehindFree(s: State, p: int)
    requires Sound(s) && NoRaw(s.H) && InStock(s.H, p)
    ensures var q := p + s.H[p].n;
            && q in s.H && !s.H[q].st.Gap? && !s.H[q].st.Binned? && s.m.PrevSize(q) == s.H[p].n && s.m.Head(p) == s.H[p].n + 1
            && s.m.PrevInuse(p) && s.H[p].n >= MINSIZE
  {
    hide Marks, Slots, Fresh, TopOk;
    assert TagAt(s.m, s.H, s.top, p) && BinOk(s.H, p);
    var q := p + s.H[p].n;
    assert Placed(s.H, s.base, s.top, p) && Placed(s.H, s.base, s.top, q) && TagAt(s.m, s.H, s.top, q);
    HeadDecodes(s.m, p, s.H[p].n);
  }

  lemma LinksOk(s: State, p: int)
    requires Sound(s) && InStock(s.H, p)
    ensures s.m.Bk(s.m.Fd(p)) == p && s.m.Fd(s.m.Bk(p)) == p
  {
    hide Marks, Slots, Fresh, TopOk;
    assert BinOk(s.H, p) && InBin(s.H, p, s.H[p].st.b);
    assert RingAt(s.m, s.H, s.H[p].st.b, p);
  }

  /** `do_check_free_chunk` passes on every binned chunk. */
  lemma CheckFreeChunk(s: State, p: int)
    requires Sound(s) && NoRaw(s.H) && InStock(s.H, p)
    ensures FreeChunkOk(s.m, s.top, s.systemMem, p)
  {
    hide Sound, ChunkOk;
    BehindFree(s, p);
    LinksOk(s, p);
    PlaceOk(s, p);
    NextFacts(s, p);
    var q := p + s.H[p].n;
    PlaceOk(s, q);
    NextFacts(s, q);
  }

  ghost predicate InUse(H: Heap, p: int) {
    p in H && (H[p].st.Live? || H[p].st.Listed?)
  }

  /** The chunk below one whose P bit is clear. */
  lemma BelowInuse(s: State, p: int)
    requires Sound(s) && NoRaw(s.H) && InUse(s.H, p) && !s.m.PrevInuse(p)
    ensures var d := p - s.m.PrevSize(p); InStock(s.H, d) && d + s.H[d].n == p
  {
    hide Links, Marks, Slots, Fresh, TopOk;
    assert TagAt(s.m, s.H, s.top, p) && Placed(s.H, s.base, s.top, p);
    HeadDecodes(s.m, p, s.H[p].n);
  }

  /** `do_check_inuse_chunk` passes on every block of the client's and every chunk in a fastbin or the cache. */
  lemma CheckInuseChunk(s: State, p: int)
    requires Sound(s) && NoRaw(s.H) && InUse(s.H, p)
    ensures InuseChunkOk(s.m, s.top, s.systemMem, p)
  {
    hide Sound, ChunkOk, FreeChunkOk;
    PlaceOk(s, p);
    NextFacts(s, p);
    TopSizeFacts(s);
    TopPrev(s);
    var q := p + s.H[p].n;
    BehindInuse(s, p);
    if !s.m.PrevInuse(p) {
      BelowInuse(s, p);
      var d := p - s.m.PrevSize(p);
      PlaceOk(s, d);
      CheckFreeChunk(s, d);
    }
    if q != s.top {
      PlaceOk(s, q);
      NextFacts(s, q);
      if s.H[q].st.Binned? {
        CheckFreeChunk(s, q);
      }
    }
  }

  lemma TopPrev(s: State)
    requires Sound(s) && s.top != Hdr(UNSORTED)
    ensures s.m.PrevInuse(s.top)
  {
    hide Core, Marks, Slots, Fresh;
    TopSizeFacts(s);
    HeadDecodes(s.m, s.top, s.sbrkBase + s.systemMem - s.top);
  }

  lemma BehindInuse(s: State, p: int)
    requires Sound(s) && InUse(s.H, p)
    ensures var q := p + s.H[p].n; q == s.top || (q in s.H && !s.H[q].st.Gap?)
  {
    hide Links, Marks, Slots, Fresh, TopOk;
    assert Placed(s.H, s.base, s.top, p);
  }

  /** `do_check_remalloced_chunk` passes on what an allocation hands out. */
  lemma CheckRemallocedChunk(H0: Heap, s: State, p: int, n: int)
    requires Sound(s) && NoRaw(s.H) && Granted(H0, s.H, p, n)
    ensures RemallocedChunkOk(s.m, s.top, s.systemMem, p, n)
  {
    hide Sound, InuseChunkOk;
    CheckInuseChunk(s, p);
    PlaceOk(s, p);
    ChunkSize(s, p);
  }

  // ---------------------------------------------------------------- walking by the heads

  /** How far a walk goes on from chunk `p`: as far as its head says, or to the end of the gap that the last
      fencepost of a segment begins. */
  ghost function Stride(s: State, p: int): int
    requires p in s.H
  {
    if s.H[p].st.Gap? then s.H[p].n else s.m.Size(p)
  }

  lemma StrideIs(s: State, p: int)
    requires Sound(s) && NoRaw(s.H) && p in s.H
    ensures Stride(s, p) == s.H[p].n > 0 && p < s.top && (p + Stride(s, p) == s.top || p + Stride(s, p) in s.H)
  {
    hide Links, Marks, Slots, Fresh;
    if !s.H[p].st.Gap? {
      ChunkSize(s, p);
    }
    assert Placed(s.H, s.base, s.top, p);
  }

  /** The bytes passed on a walk from `p` to top. */
  ghost function WalkHeads(s: State, p: int): int
    requires Sound(s) && NoRaw(s.H) && (p == s.top || p in s.H)
    decreases s.top - p
  {
    if p == s.top then 0 else
      StrideIs(s, p);
      Stride(s, p) + WalkHeads(s, p + Stride(s, p))
  }

  /** Walking by the heads from any chunk on ends at top and passes every byte up to there. */
  lemma {:induction false} HeadsCover(s: State, p: int)
    requires Sound(s) && NoRaw(s.H) && (p == s.top || p in s.H)
    ensures WalkHeads(s, p) == s.top - p
    decreases s.top - p
  {
    hide Sound, Stride;
    if p != s.top {
      StrideIs(s, p);
      HeadsCover(s, p + Stride(s, p));
    }
  }

  /** Every address between the first chunk and top lies in just one chunk as the heads delimit them. */
  lemma HeadsFind(s: State, a: int) returns (c: int)
    requires Sound(s) && NoRaw(s.H) && s.base <= a < s.top && s.base in s.H
    ensures c in s.H && c <= a < c + Stride(s, c) && forall d {:trigger Stride(s, d)} :: d in s.H && d <= a < d + Stride(s, d) ==> d == c
  {
    hide Links, Marks, Slots, Fresh, TopOk, Tags, Stride;
    c := WalkFinds(s.H, s.base, s.top, s.base, a);
    StrideIs(s, c);
    forall d | d in s.H && d <= a < d + Stride(s, d) ensures d == c {
      StrideIs(s, d);
    }
  }

  // ---------------------------------------------------------------- bins

  /** The assertions about a chunk and its place in its bin. */
  predicate BinnedOk(m: Mem, i: int, p: int) {
    var b, size := Hdr(i), m.Size(p);
    if i >= 2 then
      && BinIndex(size) == i
      && (m.Bk(p) == b || m.Size(m.Bk(p)) >= size)
      && (!InSmallRange(size) ==>
            var f, k := m.FdNext(p), m.BkNext(p);
            if f == NULL then k == NULL
            else if f == p then k == p
            else
              && (if f == m.Fd(b) then size < m.Size(f) else size > m.Size(f))
              && (if p == m.Fd(b) then size > m.Size(k) else size < m.Size(k)))
    else !InSmallRange(size) ==> m.FdNext(p) == NULL && m.BkNext(p) == NULL
  }

  /** Of two neighbours on the nextsize ring the second is larger exactly if it is the first of the bin. */
  lemma RingOrder(s: State, b: int, p: int, f: int)
    requires Sound(s) && 64 <= b <= 126 && Lead(s.m, s.H, p, b) && Lead(s.m, s.H, f, b) && p != f
    requires NextLower(s.H, b, p, f) && FirstOfSize(s.H, b, p) && FirstOfSize(s.H, b, f)
    ensures if f == s.m.Fd(Hdr(b)) then s.H[p].n < s.H[f].n else s.H[f].n < s.H[p].n
  {
    hide Marks, Slots, Fresh, TopOk;
    BinUsed(s, b, p);
    EndsFacts(s, b);
    var first := s.m.Fd(Hdr(b));
    assert OrdAt(s.H, p, f) && (f != first ==> OrdAt(s.H, f, first)) && (p != first ==> OrdAt(s.H, p, first));
  }

  lemma BinUsed(s: State, b: int, p: int)
    requires Sound(s) && 1 <= b <= 126 && InBin(s.H, p, b)
    ensures s.m.Fd(Hdr(b)) != Hdr(b)
  {
    hide Marks, Slots, Fresh, TopOk;
    CoreLow'(s);
    assert RingAt(s.m, s.H, b, Hdr(b)) && !InBin(s.H, Hdr(b), b);
  }

  /** A chunk behind another one in a sorted bin is not larger. */
  lemma SortedBack(s: State, b: int, p: int)
    requires Sound(s) && 2 <= b <= 126 && InBin(s.H, p, b)
    ensures var k := s.m.Bk(p); k == Hdr(b) || (InBin(s.H, k, b) && s.H[k].n >= s.H[p].n)
  {
    hide Marks, Slots, Fresh, TopOk;
    CoreLow'(s);
    assert RingAt(s.m, s.H, b, p);
    var k := s.m.Bk(p);
    if k != Hdr(b) {
      SmallSizes(s, b, p);
      SmallSizes(s, b, k);
      assert k != p ==> OrdAt(s.H, k, p);
    }
  }

  lemma SmallSizes(s: State, b: int, p: int)
    requires Sound(s) && 2 <= b <= 126 && InBin(s.H, p, b)
    ensures b == BinIndex(s.H[p].n) && s.H[p].n >= MINSIZE && s.H[p].n % 16 == 0 && (b < 64 ==> s.H[p].n == 16 * b) && (b >= 64 <==> !InSmallRange(s.H[p].n))
  {
    hide Marks, Slots, Fresh, TopOk;
    assert BinOk(s.H, p) && Placed(s.H, s.base, s.top, p);
    BinIndexRange(s.H[p].n);
  }

  /** They hold for every chunk of every bin. */
  lemma CheckBinned(s: State, i: int, p: int)
    requires Sound(s) && NoRaw(s.H) && 1 <= i <= 126 && InBin(s.H, p, i)
    ensures BinnedOk(s.m, i, p)
  {
    hide Sound, BinIndex, Lead, NextLower, FirstOfSize;
    ChunkSize(s, p);
    if i == UNSORTED {
      UnsortedPlain(s, p);
    } else {
      SmallSizes(s, i, p);
      SortedBack(s, i, p);
      if s.m.Bk(p) != Hdr(i) {
        ChunkSize(s, s.m.Bk(p));
      }
      if i >= 64 {
        CheckRing(s, i, p);
      }
    }
  }

  lemma UnsortedPlain(s: State, p: int)
    requires Sound(s) && InBin(s.H, p, UNSORTED)
    ensures !InSmallRange(s.H[p].n) ==> s.m.FdNext(p) == NULL && s.m.BkNext(p) == NULL
  {
    assert NextSizeAt(s.m, s.H, UNSORTED, p);
  }

  lemma CheckRing(s: State, i: int, p: int)
    requires Sound(s) && NoRaw(s.H) && 64 <= i <= 126 && InBin(s.H, p, i)
    ensures var size, f, k := s.m.Size(p), s.m.FdNext(p), s.m.BkNext(p);
            if f == NULL then k == NULL
            else if f == p then k == p
            else
              && (if f == s.m.Fd(Hdr(i)) then size < s.m.Size(f) else size > s.m.Size(f))
              && (if p == s.m.Fd(Hdr(i)) then size > s.m.Size(k) else size < s.m.Size(k))
  {
    hide Sound, NextLower, FirstOfSize;
    var f, k := s.m.FdNext(p), s.m.BkNext(p);
    ChunkSize(s, p);
    if f == NULL {
      PlainLinks(s, i, p);
    } else {
      LeadFacts(s, i, p);
      LeadFacts(s, i, f);
      LeadFacts(s, i, k);
      ChunkSize(s, f);
      ChunkSize(s, k);
      if f != p {
        RingOrder(s, i, p, f);
        RingOrder(s, i, k, p);
      }
    }
  }

  lemma PlainLinks(s: State, i: int, p: int)
    requires Sound(s) && 64 <= i <= 126 && InBin(s.H, p, i) && s.m.FdNext(p) == NULL
    ensures s.m.BkNext(p) == NULL
  {
    BinLarge(s, p, i);
    assert NextSizeAt(s.m, s.H, i, p);
  }

  // ---------------------------------------------------------------- do_check_malloc_state

  /** The chain of chunks in use behind a free one. */
  method CheckChain(av: MallocState, p: int)
    requires av.Valid() && InStock(av.H, p)
  {
    hide Sound, FreeChunkOk, InuseChunkOk;
    ghost var s := av.S();
    BehindFree(s, p);
    PlaceOk(s, p);
    var q := p + av.m.Size(p);
    EntryOkay(s, q);
    while q != av.top && Inuse(av.m, q) && av.m.Size(q) >= MINSIZE
      invariant q == av.top || (q in av.H && !av.H[q].st.Gap?)
      invariant q <= av.top
      decreases av.top - q
    {
      EntryOkay(s, q);
      InuseKind(s, q);
      CheckInuseChunk(s, q);
      if !InuseChunkOk(av.m, av.top, av.systemMem, q) {
        assert false; // do_check_inuse_chunk
      }
      BehindInuse(s, q);
      q := q + av.m.Size(q);
    }
  }

  lemma EntryOkay(s: State, q: int)
    requires Sound(s) && NoRaw(s.H) && q in s.H && !s.H[q].st.Gap?
    ensures s.m.Size(q) == s.H[q].n > 0 && q + s.H[q].n <= s.top
  {
    hide Links, Marks, Slots, Fresh, TopOk;
    ChunkSize(s, q);
    assert Placed(s.H, s.base, s.top, q);
  }

  lemma InuseKind(s: State, q: int)
    requires Sound(s) && NoRaw(s.H) && q in s.H && !s.H[q].st.Gap? && Inuse(s.m, q) && s.m.Size(q) >= MINSIZE
    ensures InUse(s.H, q)
  {
    hide Links, Marks, Slots, Fresh, TopOk;
    ChunkSize(s, q);
    NextFacts(s, q);
    assert Placed(s.H, s.base, s.top, q);
  }

  /** The chunks in S pass the check of fastbin i. */
  ghost predicate AllInuse(s: State, i: int, S: set<int>) {
    forall q {:trigger q in S} :: q in S ==> InuseChunkOk(s.m, s.top, s.systemMem, q) && FastIndex(s.m.Size(q)) == i
  }

  lemma NoneInuse(s: State, i: int)
    ensures AllInuse(s, i, {})
  {}

  lemma MoreInuse(s: State, i: int, S: set<int>, p: int)
    requires AllInuse(s, i, S) && InuseChunkOk(s.m, s.top, s.systemMem, p) && FastIndex(s.m.Size(p)) == i
    ensures AllInuse(s, i, S + {p})
  {
    hide InuseChunkOk, FastIndex;
  }

  /** The check of one fastbin. */
  method CheckFastbin(av: MallocState, i: int)
    requires av.Valid() && 0 <= i < NFASTBINS
    ensures AllInuse(av.S(), i, Members(av.H, i))
  {
    hide AllInuse, Sound, Pointee, IsCell, InList, Passed, Members, Mask, Cell, InuseChunkOk, FastIndex, NoRaw, ChainHead;
    ghost var s := av.S();
    FastStart(s, i);
    ghost var a, seen: set<int> := Cell(i), {};
    var p := av.m.e(Cell(i));
    HeadPlain(s.m, i);
    NoneInuse(s, i);
    if i > FastIndex(MAX_FAST) && p != NULL {
      FastEntry(s, i, a);
      HighFastbin(s, i, p);
      assert false; // all bins past max_fast are empty
    }
    while p != NULL
      invariant IsCell(s.H, i, a) && p == Pointee(s.m, i, a) && seen == Passed(s.H, i, a) && seen <= s.H.Keys
      invariant AllInuse(s, i, seen)
      decreases |s.H.Keys - seen|
    {
      FastEntry(s, i, a);
      FastChecked(s, i, p);
      if (p + 16) % 16 != 0 {
        assert false; // do_check_malloc_state(): unaligned fastbin chunk detected
      }
      if !InuseChunkOk(av.m, av.top, av.systemMem, p) {
        assert false; // do_check_inuse_chunk
      }
      if FastIndex(av.m.Size(p)) != i {
        assert false; // chunk belongs in this bin
      }
      Shrinks(s.H, seen, p);
      MoreInuse(s, i, seen, p);
      a, seen := p + 16, seen + {p};
      p := Mask(p + 16, av.m.Fd(p));
    }
    FastEnd(s, i, a);
  }

  lemma FastKind(s: State, i: int, p: int)
    requires Sound(s) && 0 <= i < NFASTBINS && InList(s.H, p, i)
    ensures InUse(s.H, p) && i <= 6 && s.H[p].n == 16 * (i + 2) && FastIndex(s.H[p].n) == i
  {
    assert SingleOk(s.H, p);
  }

  lemma FastChecked(s: State, i: int, p: int)
    requires Sound(s) && NoRaw(s.H) && 0 <= i < NFASTBINS && InList(s.H, p, i)
    ensures p in s.H && InuseChunkOk(s.m, s.top, s.systemMem, p) && FastIndex(s.m.Size(p)) == i
  {
    hide Sound, InuseChunkOk;
    FastKind(s, i, p);
    CheckInuseChunk(s, p);
    ChunkSize(s, p);
  }

  lemma HighFastbin(s: State, i: int, p: int)
    requires Sound(s) && 0 <= i < NFASTBINS && InList(s.H, p, i)
    ensures i <= FastIndex(MAX_FAST)
  {
    FastKind(s, i, p);
  }

  /** The chunks in S pass the check of bin i. */
  ghost predicate AllFree(s: State, i: int, S: set<int>) {
    forall q {:trigger q in S} :: q in S ==> FreeChunkOk(s.m, s.top, s.systemMem, q) && BinnedOk(s.m, i, q)
  }

  lemma NoneFreed(s: State, i: int)
    ensures AllFree(s, i, {})
  {}

  lemma MoreFree(s: State, i: int, S: set<int>, p: int)
    requires AllFree(s, i, S) && FreeChunkOk(s.m, s.top, s.systemMem, p) && BinnedOk(s.m, i, p)
    ensures AllFree(s, i, S + {p})
  {
    hide FreeChunkOk, BinnedOk;
  }

  /** The check of one bin. */
  method CheckBin(av: MallocState, i: int)
    requires av.Valid() && 1 <= i < NBINS
    ensures AllFree(av.S(), i, BinMembers(av.H, i))
    ensures i >= 2 && BinMembers(av.H, i) != {} ==> Marked(av.binmap, i)
  {
    hide Sound, InBin, BinMembers, FreeChunkOk, BinnedOk, AllFree;
    ghost var s := av.S();
    var b := Hdr(i);
    BackStart(s, i);
    if i >= 2 && av.m.Bk(b) != b {
      MarkedUsed(s, i);
      if !Marked(av.binmap, i) {
        assert false; // binmap is accurate
      }
    }
    var p := av.m.Bk(b);
    ghost var seen: set<int> := {};
    NoneFreed(s, i);
    while p != b
      invariant seen <= s.H.Keys && (if p == b then seen == BinMembers(s.H, i) else InBin(s.H, p, i) && seen == Mallinfo.Behind(s.H, i, p))
      invariant AllFree(s, i, seen)
      decreases |s.H.Keys - seen|
    {
      BackStep(s, i, p);
      InBinKey(s.H, p, i);
      BinKind(s, i, p);
      CheckFreeChunk(s, p);
      if !FreeChunkOk(av.m, av.top, av.systemMem, p) {
        assert false; // do_check_free_chunk
      }
      CheckBinned(s, i, p);
      if !BinnedOk(av.m, i, p) {
        assert false; // chunk belongs in bin, lists are sorted, nextsize links
      }
      CheckChain(av, p);
      Shrinks(s.H, seen, p);
      MoreFree(s, i, seen, p);
      seen := seen + {p};
      p := av.m.Bk(p);
    }
  }

  lemma BinKind(s: State, i: int, p: int)
    requires Sound(s) && InBin(s.H, p, i)
    ensures InStock(s.H, p) && 1 <= i <= 126
  {
    hide Marks, Slots, Fresh, TopOk;
    assert BinOk(s.H, p);
  }

  lemma MarkedUsed(s: State, i: int)
    requires Sound(s) && 2 <= i < NBINS && s.m.Bk(Hdr(i)) != Hdr(i)
    ensures Marked(s.binmap, i)
  {
    LastBinned(s, i);
  }

  /** `do_check_malloc_state`: between any two calls all assertions hold. */
  method CheckMallocState(av: MallocState)
    requires av.Valid()
    ensures av.top != Hdr(UNSORTED) ==>
      && av.sbrkBase + av.systemMem == av.top + av.m.Size(av.top) && ChunkOk(av.m, av.top, av.systemMem, av.top)
      && (forall i {:trigger Members(av.H, i)} :: 0 <= i < NFASTBINS ==> AllInuse(av.S(), i, Members(av.H, i)))
      && (forall i {:trigger BinMembers(av.H, i)} :: 1 <= i < NBINS ==> AllFree(av.S(), i, BinMembers(av.H, i)))
  {
    hide Sound, AllInuse, AllFree, Members, BinMembers;
    ghost var s := av.S();
    if av.top == Hdr(UNSORTED) {
      return;
    }
    TopSizeFacts(s);
    if av.sbrkBase + av.systemMem != av.top + av.m.Size(av.top) {
      assert false; // a contiguous main_arena is consistent with sbrk_base
    }
    for i := 0 to NFASTBINS
      invariant forall j {:trigger Members(av.H, j)} :: 0 <= j < i ==> AllInuse(s, j, Members(av.H, j))
    {
      CheckFastbin(av, i);
    }
    for i := 1 to NBINS
      invariant forall j {:trigger BinMembers(av.H, j)} :: 1 <= j < i ==> AllFree(s, j, BinMembers(av.H, j))
    {
      CheckBin(av, i);
    }
    TopPrev(s);
    if !(av.m.Size(av.top) >= MINSIZE && av.m.PrevInuse(av.top)) {
      assert false; // top chunk is OK
    }
  }
}
