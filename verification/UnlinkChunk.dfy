module Unlink {
  import opened Sizes
  import opened Memory
  import opened Heap
  import opened RingProofs
  import opened LayoutProofs
  import opened Steps
  import opened UnlinkProofs
  import opened Arena
  import opened Binmap

  lemma UnlinkSound(s: State, p: int)
    requires Sound(s) && p in s.H && s.H[p].st.Binned?
    ensures var m', H' := Unlinked(s.m, p, s.H[p].n), s.H[p := Chunk(s.H[p].n, Raw)];
            && Sound(s.(m := m', H := H')) && LiveOf(H') == LiveOf(s.H) && Kept(s.m, m', LiveOf(s.H))
            && TagWordsSame(s.m, m', s.H) && CellWordsSame(s.m, m', s.H) && m'.Head(s.top) == s.m.Head(s.top)
            && m'.Head(Hdr(UNSORTED)) == s.m.Head(Hdr(UNSORTED))
  {
    UnlinkStep(s.m, s.H, s.base, s.top, p);
    UnlinkRest(s, p);
    UnlinkKept(s, p);
  }

  lemma UnlinkRest(s: State, p: int)
    requires Sound(s) && p in s.H && s.H[p].st.Binned?
    ensures var H' := s.H[p := Chunk(s.H[p].n, Raw)];
            LiveOf(H') == LiveOf(s.H) && Marks(s.binmap, H') && Slots(s.slots, H')
  {
    var H' := s.H[p := Chunk(s.H[p].n, Raw)];
    forall c, x | 2 <= c <= 126 && InBin(H', x, c) ensures Marked(s.binmap, c) {
      assert InBin(s.H, x, c);
    }
    SlotsFrame(s.slots, s.H, H');
  }

  lemma UnlinkKept(s: State, p: int)
    requires Sound(s) && p in s.H && s.H[p].st.Binned?
    ensures Kept(s.m, Unlinked(s.m, p, s.H[p].n), LiveOf(s.H))
    ensures Fresh(Unlinked(s.m, p, s.H[p].n), s.mark) && Unlinked(s.m, p, s.H[p].n).Head(Hdr(UNSORTED)) == s.m.Head(Hdr(UNSORTED))
  {
    var m, H, n := s.m, s.H, s.H[p].n;
    BinNeighbours(m, H, s.base, s.top, p);
    CoreLow(m, H, s.base, s.top);
    var plain := InSmallRange(n) || m.FdNext(p) == NULL;
    var f, k := if plain then p else m.FdNext(p), if plain then p else m.BkNext(p);
    if !plain {
      LeaderFacts(m, H, s.base, s.top, p);
      Twin(m, H, s.base, s.top, p);
    }
    UnlinkTouches(m, H, s.base, s.top, p, f, k);
    TouchesKept(m, Unlinked(m, p, n), H, s.base, s.top, m.Fd(p), m.Bk(p), f, k);
    FreshKeeps(s, Unlinked(m, p, n));
  }

  lemma UnlinkTouches(m: Mem, H: Heap, base: int, top: int, p: int, f: int, k: int)
    requires Core(m, H, base, top) && p in H && H[p].st.Binned?
    requires var n := H[p].n; var plain := InSmallRange(n) || m.FdNext(p) == NULL;
             && (if plain then f == p && k == p else f == m.FdNext(p) && k == m.BkNext(p) && f in H && k in H && H[f].n >= 1024 && H[k].n >= 1024)
             && (!plain && Bypassed(m, p).FdNext(m.Fd(p)) == NULL ==> InBin(H, m.Fd(p), H[p].st.b) && H[m.Fd(p)].n == n)
    ensures Touches(m, Unlinked(m, p, H[p].n), H, m.Fd(p), m.Bk(p), f, k)
    ensures Unlinked(m, p, H[p].n).Head(Hdr(UNSORTED)) == m.Head(Hdr(UNSORTED))
  {
    var fd, bk, b := m.Fd(p), m.Bk(p), H[p].st.b;
    CoreLow(m, H, base, top);
    BinNeighbours(m, H, base, top, p);
    assert InBin(H, fd, b) ==> Placed(H, base, top, fd) && BinOk(H, fd);
    assert InBin(H, bk, b) ==> Placed(H, base, top, bk) && BinOk(H, bk);
    assert fd in H ==> InBody(H, fd, fd + 16) && InWhole(H, fd, fd + 16);
    assert bk in H ==> InBody(H, bk, bk + 16) && InWhole(H, bk, bk + 16);
    assert fd in H && H[fd].n >= 1024 ==> InBody(H, fd, fd + 32) && InWhole(H, fd, fd + 32);
    assert f in H && H[f].n >= 1024 ==> InBody(H, f, f + 32) && InWhole(H, f, f + 32);
    assert k in H && H[k].n >= 1024 ==> InBody(H, k, k + 32) && InWhole(H, k, k + 32);
  }

  /** Take a chunk off its bin list; none of its three corruption checks can fire. */
  method UnlinkChunk(av: MallocState, p: int)
    requires av.Ok() && p in av.H && av.H[p].st.Binned?
    modifies av`m, av`H
    ensures av.Ok() && av.H == old(av.H)[p := Chunk(old(av.H)[p].n, Raw)]
    ensures TagWordsSame(old(av.m), av.m, old(av.H)) && CellWordsSame(old(av.m), av.m, old(av.H)) && av.m.Head(av.top) == old(av.m.Head(av.top))
    ensures av.m.Head(Hdr(UNSORTED)) == old(av.m.Head(Hdr(UNSORTED)))
    ensures LiveOf(av.H) == old(LiveOf(av.H)) && Kept(old(av.m), av.m, LiveOf(av.H)) && SameListed(old(av.H), av.H)
  {
    hide Kept, LiveOf, TagWordsSame, CellWordsSame;
    ghost var m0, H0 := av.m, av.H;
    UnlinkChecks(m0, H0, av.base, av.top, p);
    UnlinkSound(av.S(), p);
    if av.m.Size(p) != av.m.PrevSize(p + av.m.Size(p)) {
      assert false; // corrupted size vs. prev_size
    }
    var fd := av.m.Fd(p);
    var bk := av.m.Bk(p);
    if av.m.Bk(fd) != p || av.m.Fd(bk) != p {
      assert false; // corrupted double-linked list
    }
    av.m := av.m.SetBk(fd, bk);
    av.m := av.m.SetFd(bk, fd);
    if !InSmallRange(av.m.Head(p)) && av.m.FdNext(p) != NULL {
      if av.m.BkNext(av.m.FdNext(p)) != p || av.m.FdNext(av.m.BkNext(p)) != p {
        assert false; // corrupted double-linked list (not small)
      }
      if av.m.FdNext(fd) == NULL {
        if av.m.FdNext(p) == p {
          av.m := av.m.SetFdNext(fd, fd).SetBkNext(fd, fd);
        } else {
          av.m := av.m.SetFdNext(fd, av.m.FdNext(p));
          av.m := av.m.SetBkNext(fd, av.m.BkNext(p));
          av.m := av.m.SetBkNext(av.m.FdNext(p), fd);
          av.m := av.m.SetFdNext(av.m.BkNext(p), fd);
        }
      } else {
        av.m := av.m.SetBkNext(av.m.FdNext(p), av.m.BkNext(p));
        av.m := av.m.SetFdNext(av.m.BkNext(p), av.m.FdNext(p));
      }
    }
    assert av.m == Unlinked(m0, p, H0[p].n);
    av.H := H0[p := Chunk(H0[p].n, Raw)];
  }
}
