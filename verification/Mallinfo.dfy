/** `int_mallinfo`: what the lists add up to is what a walk over the heap finds. */
module Mallinfo {
  import opened Sizes
  import opened Memory
  import opened Protect
  import opened Heap
  import opened Sums
  import opened Steps
  import opened Arena
  import opened Tcache

  /** The sizes of all chunks. */
  ghost function SizesOf(H: Heap): map<int, int> {
    map p | p in H :: H[p].n
  }

  /** The bytes of the chunks in S. */
  ghost function Bytes(H: Heap, S: set<int>): int
    requires S <= H.Keys
  {
    Sum(SizesOf(H), S)
  }

  lemma BytesAdd(H: Heap, S: set<int>, p: int)
    requires S <= H.Keys && p in H && p !in S
    ensures Bytes(H, S + {p}) == Bytes(H, S) + H[p].n && |S + {p}| == |S| + 1
  {
    SumAdd(SizesOf(H), S, p);
  }

  lemma BytesUnion(H: Heap, A: set<int>, B: set<int>)
    requires A <= H.Keys && B <= H.Keys && A !! B
    ensures Bytes(H, A + B) == Bytes(H, A) + Bytes(H, B) && |A + B| == |A| + |B|
  {
    SumUnion(SizesOf(H), A, B);
  }

  // ---------------------------------------------------------------- the walk

  /** Chunks that are free in the sense of mallinfo: on a bin or a fastbin. */
  ghost predicate IsFree(c: Chunk) {
    c.st.Binned? || (c.st.Listed? && 0 <= c.st.l < NFASTBINS)
  }

  ghost function FreeFrom(H: Heap, p: int): set<int> {
    set q | q in H && q >= p && IsFree(H[q])
  }

  /** Walk from chunk to chunk up to top, adding up the free ones. */
  ghost function WalkFree(H: Heap, base: int, top: int, p: int): int
    requires Tiled(H, base, top) && (p == top || p in H)
    decreases top - p
  {
    if p == top then 0 else
      assert Placed(H, base, top, p);
      (if IsFree(H[p]) then H[p].n else 0) + WalkFree(H, base, top, p + H[p].n)
  }

  lemma {:induction false} WalkSums(H: Heap, base: int, top: int, p: int)
    requires Tiled(H, base, top) && (p == top || p in H)
    ensures WalkFree(H, base, top, p) == Bytes(H, FreeFrom(H, p))
    decreases top - p
  {
    if p == top {
      forall q ensures q !in FreeFrom(H, p) {
        assert q in H ==> Placed(H, base, top, q);
      }
      assert FreeFrom(H, p) == {};
    } else {
      assert Placed(H, base, top, p);
      var next := p + H[p].n;
      WalkSums(H, base, top, next);
      forall q | q in H && p < q ensures q >= next {
        assert Apart(H, p, q) && Placed(H, base, top, q);
      }
      if IsFree(H[p]) {
        assert FreeFrom(H, p) == FreeFrom(H, next) + {p};
        BytesAdd(H, FreeFrom(H, next), p);
      } else {
        assert FreeFrom(H, p) == FreeFrom(H, next);
      }
    }
  }

  /** Where a walk over the heap starts. */
  lemma WalkStart(s: State)
    requires Sound(s) && s.top != Hdr(UNSORTED)
    ensures Tiled(s.H, s.base, s.top) && (s.base == s.top || s.base in s.H) && FreeFrom(s.H, s.base) == FreeSet(s.H)
  {
    forall q | q in s.H ensures q >= s.base {
      assert Placed(s.H, s.base, s.top, q);
    }
  }

  lemma NothingFree(s: State)
    requires Sound(s) && s.top == Hdr(UNSORTED)
    ensures FreeSet(s.H) == {} && Bytes(s.H, FreeSet(s.H)) == 0 && s.m.Size(s.top) == 0
  {}

  ghost function FreeSet(H: Heap): set<int> {
    set q | q in H && IsFree(H[q])
  }

  // ---------------------------------------------------------------- the fastbins

  ghost function FastBelow(H: Heap, i: int): set<int> {
    set q | q in H && H[q].st.Listed? && 0 <= H[q].st.l < i
  }

  /** The chunks of list l up to and including the one whose link word is `a`. */
  ghost function Passed(H: Heap, l: int, a: int): set<int> {
    set q | q in H && InList(H, q, l) && !After(H, l, a, q)
  }

  lemma FastStart(s: State, l: int)
    requires Sound(s) && 0 <= l < NFASTBINS
    ensures IsCell(s.H, l, Cell(l)) && Passed(s.H, l, Cell(l)) == {}
  {}

  /** At an entry: it is one of the list's chunks not passed so far. */
  lemma FastEntry(s: State, l: int, a: int)
    requires Sound(s) && 0 <= l < NFASTBINS && IsCell(s.H, l, a) && Pointee(s.m, l, a) != NULL
    ensures var p := Pointee(s.m, l, a);
            && InList(s.H, p, l) && p % 16 == 0 && s.m.Size(p) == s.H[p].n && IsCell(s.H, l, p + 16)
            && Pointee(s.m, l, p + 16) == Mask(p + 16, s.m.Fd(p))
            && p !in Passed(s.H, l, a) && Passed(s.H, l, p + 16) == Passed(s.H, l, a) + {p}
  {
    hide Marks, Slots, Fresh;
    assert ListAt(s.m, s.H, l, a);
    var p := Pointee(s.m, l, a);
    ChunkSize(s, p);
    CoreLow(s.m, s.H, s.base, s.top);
    assert !InList(s.H, Cell(l) - 16, l);
    forall q ensures q in Passed(s.H, l, p + 16) <==> q in Passed(s.H, l, a) + {p} {
      assert q != p && InList(s.H, q, l) ==> SingleOrd(s.H, q, p);
      assert a != Cell(l) && q != a - 16 && InList(s.H, q, l) ==> SingleOrd(s.H, q, a - 16);
    }
  }

  lemma FastEnd(s: State, l: int, a: int)
    requires Sound(s) && 0 <= l < NFASTBINS && IsCell(s.H, l, a) && Pointee(s.m, l, a) == NULL
    ensures Passed(s.H, l, a) == Members(s.H, l)
  {
    assert ListAt(s.m, s.H, l, a);
  }

  lemma FastNext(H: Heap, l: int)
    requires l >= 0
    ensures FastBelow(H, l + 1) == FastBelow(H, l) + Members(H, l) && FastBelow(H, l) !! Members(H, l)
  {}

  /** The bytes and the number of chunks in one fastbin. */
  method SumFastbin(av: MallocState, i: int) returns (bytes: int, count: int)
    requires av.Ok() && 0 <= i < NFASTBINS
    ensures bytes == Bytes(av.H, Members(av.H, i)) && count == |Members(av.H, i)|
  {
    hide Sound, Pointee, IsCell, InList, Passed, Bytes, Members, Mask, Cell;
    ghost var s := av.S();
    BytesNone(s.H);
    bytes, count := 0, 0;
    FastStart(s, i);
    ghost var a, seen: set<int> := Cell(i), {};
    var p := av.m.e(Cell(i));
    HeadPlain(s.m, i);
    while p != NULL
      invariant IsCell(s.H, i, a) && p == Pointee(s.m, i, a) && seen == Passed(s.H, i, a) && seen <= s.H.Keys
      invariant bytes == Bytes(s.H, seen) && count == |seen|
      decreases |s.H.Keys - seen|
    {
      FastEntry(s, i, a);
      if (p + 16) % 16 != 0 {
        assert false; // int_mallinfo(): unaligned fastbin chunk detected
      }
      InListKey(s.H, p, i);
      BytesAdd(s.H, seen, p);
      Shrinks(s.H, seen, p);
      count := count + 1;
      bytes := bytes + av.m.Size(p);
      a, seen := p + 16, seen + {p};
      p := Mask(p + 16, av.m.Fd(p));
    }
    FastEnd(s, i, a);
  }

  lemma HeadPlain(m: Mem, l: int)
    ensures Pointee(m, l, Cell(l)) == m.e(Cell(l))
  {}

  lemma InListKey(H: Heap, p: int, l: int)
    requires InList(H, p, l)
    ensures p in H
  {}

  lemma Shrinks(H: Heap, S: set<int>, p: int)
    requires S <= H.Keys && p in H && p !in S
    ensures |H.Keys - (S + {p})| < |H.Keys - S|
  {
    assert H.Keys - S == (H.Keys - (S + {p})) + {p};
  }

  // ---------------------------------------------------------------- the bins

  ghost function BinMembers(H: Heap, b: int): set<int> {
    set q | q in H && InBin(H, q, b)
  }

  ghost function BinsBelow(H: Heap, i: int): set<int> {
    set q | q in H && H[q].st.Binned? && 1 <= H[q].st.b < i
  }

  /** The chunks of bin b behind the node x, seen from the header backwards. */
  ghost function Behind(H: Heap, b: int, x: int): set<int> {
    set q | q in H && InBin(H, q, b) && (InBin(H, x, b) ==> H[x].st.r < H[q].st.r)
  }

  lemma BackStart(s: State, b: int)
    requires Sound(s) && 1 <= b < NBINS
    ensures var x := s.m.Bk(Hdr(b)); x == Hdr(b) || InBin(s.H, x, b)
    ensures var x := s.m.Bk(Hdr(b)); (if x == Hdr(b) then BinMembers(s.H, b) == {} else Behind(s.H, b, x) == {})
  {
    CoreLow(s.m, s.H, s.base, s.top);
    assert RingAt(s.m, s.H, b, Hdr(b)) && !InBin(s.H, Hdr(b), b);
    forall q ensures q !in Behind(s.H, b, s.m.Bk(Hdr(b))) || s.m.Bk(Hdr(b)) == Hdr(b) {
      assert InBin(s.H, q, b) || !InBin(s.H, q, b);
    }
  }

  lemma BackStep(s: State, b: int, x: int)
    requires Sound(s) && 1 <= b < NBINS && InBin(s.H, x, b)
    ensures var y := s.m.Bk(x);
            && s.m.Size(x) == s.H[x].n && x !in Behind(s.H, b, x) && (y == Hdr(b) || InBin(s.H, y, b))
            && (if y == Hdr(b) then BinMembers(s.H, b) else Behind(s.H, b, y)) == Behind(s.H, b, x) + {x}
  {
    hide Marks, Slots, Fresh;
    CoreLow(s.m, s.H, s.base, s.top);
    ChunkSize(s, x);
    assert RingAt(s.m, s.H, b, x) && !InBin(s.H, Hdr(b), b);
    var y := s.m.Bk(x);
    forall q | InBin(s.H, q, b) ensures q == x || q in Behind(s.H, b, x) || (InBin(s.H, y, b) && s.H[q].st.r <= s.H[y].st.r) {
      assert q != x ==> OrdAt(s.H, q, x);
    }
  }

  lemma BinsNext(H: Heap, b: int)
    requires b >= 1
    ensures BinsBelow(H, b + 1) == BinsBelow(H, b) + BinMembers(H, b) && BinsBelow(H, b) !! BinMembers(H, b)
  {}

  /** The bytes and the number of chunks in one bin. */
  method SumBin(av: MallocState, i: int) returns (bytes: int, count: int)
    requires av.Ok() && 1 <= i < NBINS
    ensures bytes == Bytes(av.H, BinMembers(av.H, i)) && count == |BinMembers(av.H, i)|
  {
    hide Sound, InBin, Bytes, Behind, BinMembers;
    ghost var s := av.S();
    BytesNone(s.H);
    bytes, count := 0, 0;
    var b := Hdr(i);
    BackStart(s, i);
    var p := av.m.Bk(b);
    ghost var seen: set<int> := {};
    while p != b
      invariant seen <= s.H.Keys && (if p == b then seen == BinMembers(s.H, i) else InBin(s.H, p, i) && seen == Behind(s.H, i, p))
      invariant bytes == Bytes(s.H, seen) && count == |seen|
      decreases |s.H.Keys - seen|
    {
      BackStep(s, i, p);
      InBinKey(s.H, p, i);
      BytesAdd(s.H, seen, p);
      Shrinks(s.H, seen, p);
      count := count + 1;
      bytes := bytes + av.m.Size(p);
      seen := seen + {p};
      p := av.m.Bk(p);
    }
  }

  lemma InBinKey(H: Heap, p: int, b: int)
    requires InBin(H, p, b)
    ensures p in H
  {}

  // ---------------------------------------------------------------- int_mallinfo

  datatype Info = Info(arena: int, ordblks: int, smblks: int, fsmblks: int, uordblks: int, fordblks: int, keepcost: int)

  lemma FreeParts(s: State)
    requires Sound(s)
    ensures FreeSet(s.H) == FastBelow(s.H, NFASTBINS) + BinsBelow(s.H, NBINS) && FastBelow(s.H, NFASTBINS) !! BinsBelow(s.H, NBINS)
  {
    forall q ensures q in FreeSet(s.H) <==> q in FastBelow(s.H, NFASTBINS) + BinsBelow(s.H, NBINS) {
      assert q in s.H ==> BinOk(s.H, q);
    }
  }

  /** The bytes on the lists are those that a walk over the heap finds free. */
  lemma WalkAgrees(s: State)
    requires Sound(s)
    ensures s.top != Hdr(UNSORTED) ==> Tiled(s.H, s.base, s.top) && (s.base == s.top || s.base in s.H)
    ensures s.top == Hdr(UNSORTED) ==> s.m.Size(s.top) == 0
    ensures FastBelow(s.H, NFASTBINS) <= s.H.Keys && BinsBelow(s.H, NBINS) <= s.H.Keys
    ensures |FastBelow(s.H, NFASTBINS)| + |BinsBelow(s.H, NBINS)| == |FreeSet(s.H)|
    ensures Bytes(s.H, FastBelow(s.H, NFASTBINS)) + Bytes(s.H, BinsBelow(s.H, NBINS))
         == if s.top == Hdr(UNSORTED) then 0 else WalkFree(s.H, s.base, s.top, s.base)
  {
    hide Sound, Tiled, WalkFree, FreeSet, Bytes;
    if s.top == Hdr(UNSORTED) {
      NothingFree(s);
    } else {
      WalkStart(s);
      WalkSums(s.H, s.base, s.top, s.base);
    }
    FreeParts(s);
    FastKeys(s.H, NFASTBINS);
    BinsKeys(s.H, NBINS);
    BytesUnion(s.H, FastBelow(s.H, NFASTBINS), BinsBelow(s.H, NBINS));
  }

  /** The free bytes counted over top, the fastbins and the bins are the free bytes a walk over the heap
      finds, and none before the first allocation; the rest of the system memory counts as in use. */
  method IntMallinfo(av: MallocState) returns (i: Info)
    requires av.Settled()
    ensures av.top != Hdr(UNSORTED) ==> Tiled(av.H, av.base, av.top) && (av.base == av.top || av.base in av.H)
    ensures i.fordblks == if av.top == Hdr(UNSORTED) then 0 else av.m.Size(av.top) + WalkFree(av.H, av.base, av.top, av.base)
    ensures i.uordblks + i.fordblks == i.arena == av.systemMem && i.keepcost == av.m.Size(av.top)
    ensures i.ordblks + i.smblks == 1 + |FreeSet(av.H)| && i.fsmblks == Bytes(av.H, FastBelow(av.H, NFASTBINS))
  {
    hide Sound, Tiled, WalkFree, FreeSet, FastBelow, BinsBelow, Bytes;
    ghost var s := av.S();
    WalkAgrees(s);
    var avail := av.m.Size(av.top);
    var nblocks, nfastblocks, fastavail := 1, 0, 0;
    var k := 0;
    FastNone(s.H);
    while k < NFASTBINS
      invariant 0 <= k <= NFASTBINS && FastBelow(s.H, k) <= s.H.Keys
      invariant fastavail == Bytes(s.H, FastBelow(s.H, k)) && nfastblocks == |FastBelow(s.H, k)|
    {
      var bytes, count := SumFastbin(av, k);
      FastNext(s.H, k);
      FastKeys(s.H, k);
      BytesUnion(s.H, FastBelow(s.H, k), Members(s.H, k));
      fastavail := fastavail + bytes;
      nfastblocks := nfastblocks + count;
      k := k + 1;
    }
    avail := avail + fastavail;
    k := 1;
    BinsNone(s.H);
    ghost var before := avail;
    while k < NBINS
      invariant 1 <= k <= NBINS && BinsBelow(s.H, k) <= s.H.Keys
      invariant avail == before + Bytes(s.H, BinsBelow(s.H, k)) && nblocks == 1 + |BinsBelow(s.H, k)|
    {
      var bytes, count := SumBin(av, k);
      BinsNext(s.H, k);
      BinsKeys(s.H, k);
      BytesUnion(s.H, BinsBelow(s.H, k), BinMembers(s.H, k));
      nblocks := nblocks + count;
      avail := avail + bytes;
      k := k + 1;
    }
    i := Info(av.systemMem, nblocks, nfastblocks, fastavail, av.systemMem - avail, avail, av.m.Size(av.top));
  }

  lemma BytesNone(H: Heap)
    ensures Bytes(H, {}) == 0
  {}

  lemma FastNone(H: Heap)
    ensures FastBelow(H, 0) == {} && Bytes(H, {}) == 0
  {}

  lemma FastKeys(H: Heap, k: int)
    ensures FastBelow(H, k) <= H.Keys && FastBelow(H, k + 1) <= H.Keys && Members(H, k) <= H.Keys
  {}

  lemma BinsNone(H: Heap)
    ensures BinsBelow(H, 1) == {} && Bytes(H, {}) == 0
  {}

  lemma BinsKeys(H: Heap, k: int)
    ensures BinsBelow(H, k) <= H.Keys && BinsBelow(H, k + 1) <= H.Keys && BinMembers(H, k) <= H.Keys
  {}
}
