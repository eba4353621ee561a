/** Taking a chunk off its bin: the state after `unlink_chunk` is sound, in each of its branches. */
module UnlinkProofs {
  import opened Sizes
  import opened Memory
  import opened Heap
  import opened RingProofs
  import opened NextSizeProofs
  import opened LayoutProofs
  import opened Steps

  /** Memory after the two assignments that take `p` out of the main ring. */
  function Bypassed(m: Mem, p: int): Mem {
    m.SetBk(m.Fd(p), m.Bk(p)).SetFd(m.Bk(p), m.Fd(p))
  }

  /** No node of a ring sits 16 bytes above the start of a chunk. */
  lemma NodeOffset(m: Mem, H: Heap, base: int, top: int, x: int, y: int, b: int)
    requires Core(m, H, base, top) && Node(H, x, b) && b <= 127 && y in H && H[y].n >= MINSIZE
    ensures x != y + 16
  {
    assert Placed(H, base, top, y);
    if InBin(H, x, b) && x != y {
      assert Apart(H, x, y) && Placed(H, base, top, x);
    }
  }

  lemma BinNeighbours(m: Mem, H: Heap, base: int, top: int, p: int)
    requires Core(m, H, base, top) && p in H && H[p].st.Binned?
    ensures var b, fd, bk := H[p].st.b, m.Fd(p), m.Bk(p);
            && 1 <= b <= 126 && Node(H, fd, b) && Node(H, bk, b) && fd != p && bk != p
            && m.Bk(fd) == p && m.Fd(bk) == p
            && Follows(H, b, p, fd) && Follows(H, b, bk, p)
  {
    assert BinOk(H, p) && InBin(H, p, H[p].st.b) && RingAt(m, H, H[p].st.b, p);
  }

  lemma BypassedWords(m: Mem, H: Heap, base: int, top: int, p: int)
    requires Core(m, H, base, top) && p in H && H[p].st.Binned?
    ensures var m1, fd, bk := Bypassed(m, p), m.Fd(p), m.Bk(p);
            && NextWordsSame(m, m1, H) && CellWordsSame(m, m1, H) && TagWordsSame(m, m1, H)
            && (top >= base ==> m1.Head(top) == m.Head(top))
            && (forall b, x {:trigger Node(H, x, b)} :: 1 <= b <= 127 && Node(H, x, b) ==>
                  (x != fd ==> m1.Bk(x) == m.Bk(x)) && (x != bk ==> m1.Fd(x) == m.Fd(x)))
            && m1.Bk(fd) == bk && m1.Fd(bk) == fd
  {
    var m1, fd, bk, b := Bypassed(m, p), m.Fd(p), m.Bk(p), H[p].st.b;
    BinNeighbours(m, H, base, top, p);
    CoreLow(m, H, base, top);
    forall c, x | InBin(H, x, c) && !InSmallRange(H[x].n)
      ensures m1.FdNext(x) == m.FdNext(x) && m1.BkNext(x) == m.BkNext(x)
    {
      NodeOffset(m, H, base, top, fd, x, b);
      NodeOffset(m, H, base, top, bk, x, b);
    }
    forall l, x | InList(H, x, l) ensures m1.Fd(x) == m.Fd(x) {
      assert !InBin(H, x, b);
    }
    forall x | x in H ensures m1.Head(x) == m.Head(x) && m1.PrevSize(x) == m.PrevSize(x) {
      BoundaryOffset(m, H, base, top, x, fd, b);
      BoundaryOffset(m, H, base, top, x, bk, b);
    }
    if top >= base {
      BoundaryOffset(m, H, base, top, top, fd, b);
      BoundaryOffset(m, H, base, top, top, bk, b);
    }
  }

  lemma BoundaryOffset(m: Mem, H: Heap, base: int, top: int, a: int, x: int, b: int)
    requires Core(m, H, base, top) && Node(H, x, b) && b <= 127 && (a in H || (a == top && top >= base))
    ensures a != x + 16
  {
    CoreLow(m, H, base, top);
    if InBin(H, x, b) {
      assert Placed(H, base, top, x) && BinOk(H, x);
      if a in H && a != x {
        assert Apart(H, a, x) && Placed(H, base, top, a);
      }
    }
  }

  /** Everything but the nextsize ring and its words is settled by the two link assignments. */
  lemma BypassedSound(m: Mem, H: Heap, H': Heap, base: int, top: int, p: int)
    requires Core(m, H, base, top) && p in H && H[p].st.Binned? && H' == H[p := Chunk(H[p].n, Raw)]
    ensures var m1 := Bypassed(m, p);
            Body(m1, H', base, top) && Ordered(H') && Rings(m1, H') && Lists(m1, H')
  {
    var m1 := Bypassed(m, p);
    CoreLow(m, H, base, top);
    BypassedWords(m, H, base, top, p);
    BinNeighbours(m, H, base, top, p);
    assert Without(H, H', p);
    UnlinkRing(m, m1, H, H', p);
    assert TagAt(m, H, top, p);
    ToRaw(m, H, H', base, top, p);
    TagsFrame(m, m1, H', base, top);
    ListsFrame(m, m1, H, H');
  }

  /** The chunk was not on the nextsize ring. */
  lemma UnlinkPlain(m: Mem, H: Heap, H': Heap, base: int, top: int, p: int)
    requires Core(m, H, base, top) && p in H && H[p].st.Binned? && H' == H[p := Chunk(H[p].n, Raw)]
    requires InSmallRange(H[p].n) || m.FdNext(p) == NULL
    ensures Core(Bypassed(m, p), H', base, top)
  {
    BypassedSound(m, H, H', base, top, p);
    BypassedWords(m, H, base, top, p);
    forall b, x | InBin(H', x, b) && !InSmallRange(H'[x].n) ensures NextSizeAt(Bypassed(m, p), H', b, x) {
      NextSizeDropPlain(m, Bypassed(m, p), H, H', p, b, x);
    }
  }

  /** Stores to nextsize words of large chunks disturb nothing but the nextsize ring. */
  lemma NextStores(m: Mem, m': Mem, H: Heap, base: int, top: int, f: int, k: int, s: int)
    requires base >= HEAP_MIN && Body(m, H, base, top) && Ordered(H) && Rings(m, H) && Lists(m, H)
    requires f in H && k in H && s in H && H[f].n >= 1024 && H[k].n >= 1024 && H[s].n >= 1024
    requires SameOff(m, m', {f + 32, k + 32, s + 32})
    ensures Body(m', H, base, top) && Rings(m', H) && Lists(m', H)
    ensures TagWordsSame(m, m', H) && CellWordsSame(m, m', H) && (top >= base ==> m'.Head(top) == m.Head(top))
  {
    assert Placed(H, base, top, f) && Placed(H, base, top, k) && Placed(H, base, top, s);
    forall a | a in H ensures a != f + 32 && a != k + 32 && a != s + 32 {
      Within(H, base, top, f, a);
      Within(H, base, top, k, a);
      Within(H, base, top, s, a);
    }
    if top >= base {
      Within(H, base, top, f, top);
      Within(H, base, top, k, top);
      Within(H, base, top, s, top);
    }
    TagsFrame(m, m', H, base, top);
    forall b, x | 1 <= b <= 127 && Node(H, x, b) ensures m'.Fd(x) == m.Fd(x) && m'.Bk(x) == m.Bk(x) {
      LinkOffset(H, base, top, f, x, b);
      LinkOffset(H, base, top, k, x, b);
      LinkOffset(H, base, top, s, x, b);
    }
    RingsFrame(m, m', H, H);
    forall l, x | InList(H, x, l) ensures m'.Fd(x) == m.Fd(x) {
      Within(H, base, top, f, x);
      Within(H, base, top, k, x);
      Within(H, base, top, s, x);
    }
    ListsFrame(m, m', H, H);
  }

  lemma Within(H: Heap, base: int, top: int, y: int, a: int)
    requires Tiled(H, base, top) && y in H && H[y].n >= 1024 && (a in H || (a == top && top >= base))
    ensures a <= y || y + 1024 <= a
  {
    assert Placed(H, base, top, y);
    if a in H && a != y {
      assert Apart(H, a, y) && Placed(H, base, top, a);
    }
  }

  lemma LinkOffset(H: Heap, base: int, top: int, y: int, x: int, b: int)
    requires base >= HEAP_MIN && Tiled(H, base, top) && y in H && H[y].n >= 1024 && Node(H, x, b) && b <= 127
    ensures x + 16 != y + 32
  {
    assert Placed(H, base, top, y);
    if InBin(H, x, b) {
      Within(H, base, top, y, x);
    }
  }

  /** What the ring around a leader looks like. */
  lemma LeaderFacts(m: Mem, H: Heap, base: int, top: int, p: int)
    requires Core(m, H, base, top) && p in H && H[p].st.Binned?
    requires !InSmallRange(H[p].n) && m.FdNext(p) != NULL
    ensures var b, f, k := H[p].st.b, m.FdNext(p), m.BkNext(p);
            && 64 <= b <= 126 && Lead(m, H, f, b) && Lead(m, H, k, b) && m.BkNext(f) == p && m.FdNext(k) == p
            && H[f].n >= 1024 && H[k].n >= 1024 && (f == p <==> k == p)
  {
    var b := H[p].st.b;
    assert BinOk(H, p) && InBin(H, p, b) && NextSizeAt(m, H, b, p);
    LargeStays(H, b, p, m.FdNext(p));
    LargeStays(H, b, p, m.BkNext(p));
  }

  /** A bin header never shows a null fd_nextsize: it is the fd of the next bin. */
  lemma HeaderAlias(m: Mem, H: Heap, base: int, top: int, p: int)
    requires Core(m, H, base, top) && p in H && H[p].st.Binned?
    ensures Bypassed(m, p).FdNext(Hdr(H[p].st.b)) != NULL
    ensures InBin(H, m.Fd(p), H[p].st.b) && !InSmallRange(H[m.Fd(p)].n) ==>
              Bypassed(m, p).FdNext(m.Fd(p)) == m.FdNext(m.Fd(p))
  {
    var b := H[p].st.b;
    BinNeighbours(m, H, base, top, p);
    BypassedWords(m, H, base, top, p);
    CoreLow(m, H, base, top);
    assert Node(H, Hdr(b + 1), b + 1) && RingAt(m, H, b + 1, Hdr(b + 1));
    assert Bypassed(m, p).FdNext(Hdr(b)) == Bypassed(m, p).Fd(Hdr(b + 1));
    assert m.Bk(p) != Hdr(b + 1);
  }

  /** If the successor on the main ring is on the nextsize ring too, or is the header, then `p` was
      the only chunk of its size; otherwise the successor has the same size. */
  lemma Twin(m: Mem, H: Heap, base: int, top: int, p: int)
    requires Core(m, H, base, top) && p in H && H[p].st.Binned?
    requires !InSmallRange(H[p].n) && m.FdNext(p) != NULL
    ensures var b, fd := H[p].st.b, m.Fd(p);
            if Bypassed(m, p).FdNext(fd) == NULL then
              InBin(H, fd, b) && H[fd].n == H[p].n && m.FdNext(fd) == NULL
            else
              forall q {:trigger InBin(H, q, b)} :: InBin(H, q, b) && q != p ==> H[q].n != H[p].n
  {
    var b, fd := H[p].st.b, m.Fd(p);
    LeaderFacts(m, H, base, top, p);
    BinNeighbours(m, H, base, top, p);
    HeaderAlias(m, H, base, top, p);
    assert InBin(H, p, b) && NextSizeAt(m, H, b, p);
    if InBin(H, fd, b) {
      LargeStays(H, b, p, fd);
      assert NextSizeAt(m, H, b, fd) && OrdAt(H, p, fd);
    }
    if Bypassed(m, p).FdNext(fd) == NULL {
      var q :| Lead(m, H, q, b) && H[q].n == H[fd].n && H[q].st.r < H[fd].st.r;
      assert q != p ==> OrdAt(H, q, p) && NextSizeAt(m, H, b, q);
    } else {
      forall q | InBin(H, q, b) && q != p ensures H[q].n != H[p].n {
        assert OrdAt(H, p, q);
        if InBin(H, fd, b) {
          assert q != fd ==> OrdAt(H, fd, q);
        }
      }
    }
  }

  /** Memory after the ring is closed over `p`. */
  function Skipped(m: Mem, p: int): Mem {
    Bypassed(m, p).SetBkNext(m.FdNext(p), m.BkNext(p)).SetFdNext(m.BkNext(p), m.FdNext(p))
  }

  /** Memory after the next chunk has taken the ring position of `p`. */
  function Promoted(m: Mem, p: int): Mem {
    var f, k, s, m1 := m.FdNext(p), m.BkNext(p), m.Fd(p), Bypassed(m, p);
    if f == p then m1.SetFdNext(s, s).SetBkNext(s, s)
    else m1.SetFdNext(s, f).SetBkNext(s, k).SetBkNext(f, s).SetFdNext(k, s)
  }

  lemma SkippedRing(m: Mem, H: Heap, H': Heap, base: int, top: int, p: int)
    requires Core(m, H, base, top) && p in H && H[p].st.Binned? && H' == H[p := Chunk(H[p].n, Raw)]
    requires !InSmallRange(H[p].n) && m.FdNext(p) != NULL
    requires Bypassed(m, p).FdNext(m.Fd(p)) != NULL
    ensures NextSizes(Skipped(m, p), H')
  {
    var m2 := Skipped(m, p);
    CoreLow(m, H, base, top);
    LeaderFacts(m, H, base, top, p);
    Twin(m, H, base, top, p);
    BypassedWords(m, H, base, top, p);
    assert NextWordsSameBut(m, m2, H, m.FdNext(p), m.BkNext(p), NULL);
    SkippedRing'(m, m2, H, H', p);
  }

  lemma SkippedRing'(m: Mem, m2: Mem, H: Heap, H': Heap, p: int)
    requires NextSizes(m, H) && Ordered(H) && Low(H) && Without(H, H', p)
    requires !InSmallRange(H[p].n) && m.FdNext(p) != NULL
    requires var f, k := m.FdNext(p), m.BkNext(p);
             m2.BkNext(f) == k && m2.FdNext(k) == f && NextWordsSameBut(m, m2, H, f, k, NULL)
    requires forall q {:trigger InBin(H, q, H[p].st.b)} :: InBin(H, q, H[p].st.b) && q != p ==> H[q].n != H[p].n
    ensures NextSizes(m2, H')
  {
    forall b, x | InBin(H', x, b) && !InSmallRange(H'[x].n) ensures NextSizeAt(m2, H', b, x) {
      NextSizeDropLead(m, m2, H, H', p, b, x);
    }
  }

  lemma UnlinkDrop(m: Mem, H: Heap, H': Heap, base: int, top: int, p: int)
    requires Core(m, H, base, top) && p in H && H[p].st.Binned? && H' == H[p := Chunk(H[p].n, Raw)]
    requires !InSmallRange(H[p].n) && m.FdNext(p) != NULL
    requires Bypassed(m, p).FdNext(m.Fd(p)) != NULL
    ensures var m2 := Skipped(m, p);
            Core(m2, H', base, top) && TagWordsSame(Bypassed(m, p), m2, H') && CellWordsSame(Bypassed(m, p), m2, H')
            && (top >= base ==> m2.Head(top) == Bypassed(m, p).Head(top))
  {
    var f, k, m1, m2 := m.FdNext(p), m.BkNext(p), Bypassed(m, p), Skipped(m, p);
    LeaderFacts(m, H, base, top, p);
    SkippedRing(m, H, H', base, top, p);
    BypassedSound(m, H, H', base, top, p);
    assert SameOff(m1, m2, {f + 32, k + 32, k + 32});
    NextStores(m1, m2, H', base, top, f, k, k);
  }

  lemma PromotedRing(m: Mem, H: Heap, H': Heap, base: int, top: int, p: int)
    requires Core(m, H, base, top) && p in H && H[p].st.Binned? && H' == H[p := Chunk(H[p].n, Raw)]
    requires !InSmallRange(H[p].n) && m.FdNext(p) != NULL
    requires Bypassed(m, p).FdNext(m.Fd(p)) == NULL
    ensures NextSizes(Promoted(m, p), H') && InBin(H, m.Fd(p), H[p].st.b) && H[m.Fd(p)].n == H[p].n
  {
    var s, m2 := m.Fd(p), Promoted(m, p);
    CoreLow(m, H, base, top);
    LeaderFacts(m, H, base, top, p);
    BinNeighbours(m, H, base, top, p);
    Twin(m, H, base, top, p);
    BypassedWords(m, H, base, top, p);
    assert InBin(H, p, H[p].st.b);
    assert Promotes(m, m2, H, H', p, s);
    PromotedRing'(m, m2, H, H', p, s);
  }

  lemma PromotedRing'(m: Mem, m2: Mem, H: Heap, H': Heap, p: int, s: int)
    requires NextSizes(m, H) && Ordered(H) && Low(H) && Promotes(m, m2, H, H', p, s)
    ensures NextSizes(m2, H')
  {
    forall b, x | InBin(H', x, b) && !InSmallRange(H'[x].n) ensures NextSizeAt(m2, H', b, x) {
      NextSizePromote(m, m2, H, H', p, s, b, x);
    }
  }

  lemma UnlinkPromote(m: Mem, H: Heap, H': Heap, base: int, top: int, p: int)
    requires Core(m, H, base, top) && p in H && H[p].st.Binned? && H' == H[p := Chunk(H[p].n, Raw)]
    requires !InSmallRange(H[p].n) && m.FdNext(p) != NULL
    requires Bypassed(m, p).FdNext(m.Fd(p)) == NULL
    ensures var m2 := Promoted(m, p);
            Core(m2, H', base, top) && TagWordsSame(Bypassed(m, p), m2, H') && CellWordsSame(Bypassed(m, p), m2, H')
            && (top >= base ==> m2.Head(top) == Bypassed(m, p).Head(top))
  {
    var f, k, s, m1, m2 := m.FdNext(p), m.BkNext(p), m.Fd(p), Bypassed(m, p), Promoted(m, p);
    LeaderFacts(m, H, base, top, p);
    PromotedRing(m, H, H', base, top, p);
    BypassedSound(m, H, H', base, top, p);
    assert SameOff(m1, m2, {f + 32, k + 32, s + 32});
    NextStores(m1, m2, H', base, top, f, k, s);
  }

  /** Memory after `unlink_chunk` has taken `p` off its bin. */
  function Unlinked(m: Mem, p: int, n: int): Mem {
    if InSmallRange(n) || m.FdNext(p) == NULL then Bypassed(m, p)
    else if Bypassed(m, p).FdNext(m.Fd(p)) == NULL then Promoted(m, p)
    else Skipped(m, p)
  }

  /** What the corruption checks of `unlink_chunk` compare. */
  lemma UnlinkChecks(m: Mem, H: Heap, base: int, top: int, p: int)
    requires Core(m, H, base, top) && p in H && H[p].st.Binned?
    ensures var n, fd, bk, m1 := H[p].n, m.Fd(p), m.Bk(p), Bypassed(m, p);
            && m.Size(p) == n && m.PrevSize(p + n) == n && m.Bk(fd) == p && m.Fd(bk) == p
            && (InSmallRange(m1.Head(p)) <==> InSmallRange(n)) && fd != p && bk != p
            && (!InSmallRange(n) ==> m1.FdNext(p) == m.FdNext(p) && m1.BkNext(p) == m.BkNext(p))
            && (!InSmallRange(n) && m.FdNext(p) != NULL ==>
                  && m1.BkNext(m.FdNext(p)) == p && m1.FdNext(m.BkNext(p)) == p
                  && (m.FdNext(p) == p <==> m.BkNext(p) == p))
  {
    assert TagAt(m, H, top, p) && Placed(H, base, top, p) && InBin(H, p, H[p].st.b);
    BinNeighbours(m, H, base, top, p);
    BypassedWords(m, H, base, top, p);
    if !InSmallRange(H[p].n) && m.FdNext(p) != NULL {
      LeaderFacts(m, H, base, top, p);
    }
  }

  lemma UnlinkStep(m: Mem, H: Heap, base: int, top: int, p: int)
    requires Core(m, H, base, top) && p in H && H[p].st.Binned?
    ensures var m2 := Unlinked(m, p, H[p].n);
            && Core(m2, H[p := Chunk(H[p].n, Raw)], base, top)
            && TagWordsSame(m, m2, H) && CellWordsSame(m, m2, H) && (top >= base ==> m2.Head(top) == m.Head(top))
  {
    var H' := H[p := Chunk(H[p].n, Raw)];
    BypassedWords(m, H, base, top, p);
    if InSmallRange(H[p].n) || m.FdNext(p) == NULL {
      UnlinkPlain(m, H, H', base, top, p);
    } else if Bypassed(m, p).FdNext(m.Fd(p)) == NULL {
      UnlinkPromote(m, H, H', base, top, p);
      TagWordsTrans(m, Bypassed(m, p), Promoted(m, p), H, H');
    } else {
      UnlinkDrop(m, H, H', base, top, p);
      TagWordsTrans(m, Bypassed(m, p), Skipped(m, p), H, H');
    }
  }

  lemma TagWordsTrans(m: Mem, m1: Mem, m2: Mem, H: Heap, H': Heap)
    requires TagWordsSame(m, m1, H) && TagWordsSame(m1, m2, H') && H.Keys == H'.Keys
    requires CellWordsSame(m, m1, H) && CellWordsSame(m1, m2, H') && SameListed(H, H')
    ensures TagWordsSame(m, m2, H) && CellWordsSame(m, m2, H)
  {
    forall p | p in H ensures m2.Head(p) == m.Head(p) && m2.PrevSize(p) == m.PrevSize(p) {
      assert p in H';
    }
    forall l, p | InList(H, p, l) ensures m2.Fd(p) == m.Fd(p) {
      assert InList(H', p, l);
    }
  }
}
