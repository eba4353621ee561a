/** The per-thread cache: singly linked bins of freed blocks with masked links, kept inside the
    blocks themselves. Large bins are ordered by size. */
module Tcache {
  import opened Sizes
  import opened Memory
  import opened Protect
  import opened Heap
  import opened ListProofs
  import opened LayoutProofs
  import opened Steps
  import opened ListingProofs
  import opened Arena
  import opened Binmap
  import opened FreeChunk
  import opened ListEntries

  /** The list number of thread-cache bin t. */
  function TList(t: int): int {
    NFASTBINS + t
  }

  /** `tcache_put_n` on memory: mark the entry, point it at what `*ep` points to, point `*ep` at it. */
  function PutWords(m: Mem, p: int, ep: int, mangled: bool, key: int): Mem {
    var e := p + 16;
    var m1 := m.SetBk(p, key);
    if !mangled then
      var m2 := Mem(Put(m1.e, e, Mask(e, m1.e(ep))), m1.o);
      Mem(Put(m2.e, ep, e), m2.o)
    else
      var m2 := Mem(Put(m1.e, e, Mask(e, Mask(ep, m1.e(ep)))), m1.o);
      Mem(Put(m2.e, ep, Mask(ep, e)), m2.o)
  }

  /** `tcache_get_n` on memory, for the entry `e` that `*ep` points to. */
  function GetWords(m: Mem, e: int, ep: int, mangled: bool): Mem {
    var m1 := if !mangled then Mem(Put(m.e, ep, Mask(e, m.e(e))), m.o)
              else Mem(Put(m.e, ep, Mask(ep, Mask(e, m.e(e)))), m.o);
    m1.SetBk(e - 16, 0)
  }

  /** Block `p` may enter bin t behind cell ep without breaking its size order. */
  ghost predicate Enterable(s: State, p: int, t: int, ep: int) {
    && Sound(s) && p in s.H && s.H[p].st.Live? && 0 <= t < |s.slots| && s.slots[t] > 0
    && IsCell(s.H, TList(t), ep) && ListSize(TList(t), s.H[p].n)
    && (InList(s.H, ep - 16, TList(t)) ==> s.H[ep - 16].n <= s.H[p].n)
    && var v := Pointee(s.m, TList(t), ep);
       v != NULL && InList(s.H, v - 16, TList(t)) ==> s.H[p].n <= s.H[v - 16].n
  }

  ghost function PutRank(s: State, t: int, ep: int): (r: real)
    requires Sound(s) && 0 <= t < TCACHE_MAX_BINS && IsCell(s.H, TList(t), ep)
    ensures Behind(s.m, s.H, TList(t), ep, r)
  {
    CoreLow(s.m, s.H, s.base, s.top);
    RankBehind(s.m, s.H, TList(t), ep)
  }

  ghost function PutHeap(s: State, p: int, t: int, ep: int): Heap
    requires Enterable(s, p, t, ep)
  {
    s.H[p := Chunk(s.H[p].n, Listed(TList(t), PutRank(s, t, ep)))]
  }

  lemma PutSound(s: State, p: int, t: int, ep: int, mangled: bool, key: int)
    requires Enterable(s, p, t, ep) && (mangled <==> ep != Cell(TList(t)))
    ensures var m', H', slots' := PutWords(s.m, p, ep, mangled, key), PutHeap(s, p, t, ep), s.slots[t := s.slots[t] - 1];
            && Sound(s.(m := m', H := H', slots := slots'))
            && LiveOf(H') == LiveOf(s.H) - {p} && Kept(s.m, m', LiveOf(H'))
  {
    var m', H' := PutWords(s.m, p, ep, mangled, key), PutHeap(s, p, t, ep);
    PutCore(s, p, t, ep, mangled, key);
    PutRest(s, p, t, ep);
    assert LiveOf(H') == LiveOf(s.H) - {p};
    PutKept(s, p, t, ep, mangled, key);
  }

  lemma PutCore(s: State, p: int, t: int, ep: int, mangled: bool, key: int)
    requires Enterable(s, p, t, ep) && (mangled <==> ep != Cell(TList(t)))
    ensures var m', H' := PutWords(s.m, p, ep, mangled, key), PutHeap(s, p, t, ep);
            && Core(m', H', s.base, s.top) && TopOk(m', H', s.base, s.top, s.sbrkBase, s.systemMem)
  {
    PutStores(s, p, t, ep, mangled, key);
    PutStep(s.m, PutWords(s.m, p, ep, mangled, key), s.H, PutHeap(s, p, t, ep), s.base, s.top, p, TList(t), ep, PutRank(s, t, ep));
  }

  lemma PutKept(s: State, p: int, t: int, ep: int, mangled: bool, key: int)
    requires Enterable(s, p, t, ep) && (mangled <==> ep != Cell(TList(t)))
    requires LiveOf(PutHeap(s, p, t, ep)) == LiveOf(s.H) - {p}
    ensures var m', H' := PutWords(s.m, p, ep, mangled, key), PutHeap(s, p, t, ep);
            Kept(s.m, m', LiveOf(H')) && Fresh(m', s.mark)
  {
    var m', H' := PutWords(s.m, p, ep, mangled, key), PutHeap(s, p, t, ep);
    assert Placed(s.H, s.base, s.top, p);
    var y := if mangled then ep - 16 else p;
    CellTouches(s, p, t, ep);
    assert Touches(s.m, m', s.H, p, y, y, y);
    ReleasedKept(s, m', H', p, y);
  }

  lemma PutStores(s: State, p: int, t: int, ep: int, mangled: bool, key: int)
    requires Enterable(s, p, t, ep) && (mangled <==> ep != Cell(TList(t)))
    ensures var l, m' := TList(t), PutWords(s.m, p, ep, mangled, key);
            && Pointee(m', l, ep) == Link(l, p) && Pointee(m', l, p + 16) == Pointee(s.m, l, ep)
            && Relisted(s.m, m', ep, p) && ep != p + 16
  {
    CoreLow(s.m, s.H, s.base, s.top);
    assert p >= HEAP_MIN;
    MaskRoundTrip(p + 16, Pointee(s.m, TList(t), ep));
    MaskRoundTrip(ep, p + 16);
  }

  lemma PutRest(s: State, p: int, t: int, ep: int)
    requires Enterable(s, p, t, ep)
    ensures var H' := PutHeap(s, p, t, ep); Marks(s.binmap, H') && Slots(s.slots[t := s.slots[t] - 1], H')
  {
    hide Core, TopOk, Fresh, IsCell, Pointee, ListSize, Behind;
    var l, H', slots' := TList(t), PutHeap(s, p, t, ep), s.slots[t := s.slots[t] - 1];
    forall b, x | 2 <= b <= 126 && InBin(H', x, b) ensures Marked(s.binmap, b) {
      assert InBin(s.H, x, b);
    }
    forall k ensures Members(H', k) == if k == l then Members(s.H, l) + {p} else Members(s.H, k) {
      forall x ensures x in Members(H', k) <==> x in Members(s.H, k) || (x == p && k == l) {
        assert InList(H', x, k) <==> InList(s.H, x, k) || (x == p && k == l);
      }
    }
    assert p !in Members(s.H, l);
  }

  /** The cell `ep` and the words of block `p` lie in the tables or in chunk bodies. */
  lemma CellTouches(s: State, p: int, t: int, ep: int)
    requires Sound(s) && p in s.H && s.H[p].n >= 16 && 0 <= t < TCACHE_MAX_BINS && IsCell(s.H, TList(t), ep)
    ensures InBody(s.H, p, p + 16) && InWhole(s.H, p, p + 16)
    ensures if ep == Cell(TList(t)) then ep < HEAP_MIN else InBody(s.H, ep - 16, ep) && NotLive(s.H, ep - 16)
  {
    if ep != Cell(TList(t)) {
      assert Placed(s.H, s.base, s.top, ep - 16);
    }
  }

  // ---------------------------------------------------------------- get

  /** Cell ep of bin t points to an entry. */
  ghost predicate Gettable(s: State, t: int, ep: int) {
    Sound(s) && 0 <= t < |s.slots| && IsCell(s.H, TList(t), ep) && Pointee(s.m, TList(t), ep) != NULL
  }

  lemma GetSound(s: State, t: int, ep: int, mangled: bool)
    requires Gettable(s, t, ep) && (mangled <==> ep != Cell(TList(t)))
    ensures var e := Pointee(s.m, TList(t), ep); var p := e - 16;
            var m' := GetWords(s.m, e, ep, mangled);
            && InList(s.H, p, TList(t)) && e % 16 == 0
            && var H', slots' := s.H[p := Chunk(s.H[p].n, Live)], s.slots[t := s.slots[t] + 1];
            && Sound(s.(m := m', H := H', slots := slots'))
            && LiveOf(H') == LiveOf(s.H)[p := s.H[p].n] && Kept(s.m, m', LiveOf(s.H))
  {
    var l, e := TList(t), Pointee(s.m, TList(t), ep);
    var p, m' := e - 16, GetWords(s.m, e, ep, mangled);
    assert ListAt(s.m, s.H, l, ep);
    assert Placed(s.H, s.base, s.top, p);
    var H' := s.H[p := Chunk(s.H[p].n, Live)];
    CoreLow(s.m, s.H, s.base, s.top);
    GetStores(s, t, ep, mangled);
    GetStep(s.m, m', s.H, H', s.base, s.top, p, l, ep);
    GetRest(s, t, p);
    CellTouches(s, p, t, ep);
    TouchesKept(s.m, m', s.H, s.base, s.top, p, if mangled then ep - 16 else p, p, p);
    FreshKeeps(s, m');
  }

  lemma GetStores(s: State, t: int, ep: int, mangled: bool)
    requires Gettable(s, t, ep) && (mangled <==> ep != Cell(TList(t)))
    ensures var l, e := TList(t), Pointee(s.m, TList(t), ep); var m' := GetWords(s.m, e, ep, mangled);
            && Pointee(m', l, ep) == Pointee(s.m, l, e) && Relisted(s.m, m', ep, e - 16)
            && (ep != e ==> m'.Fd(e - 16) == s.m.Fd(e - 16))
  {
    var l, e := TList(t), Pointee(s.m, TList(t), ep);
    assert ListAt(s.m, s.H, l, ep);
    assert Placed(s.H, s.base, s.top, e - 16);
    MaskRoundTrip(ep, Mask(e, s.m.e(e)));
    assert InList(s.H, ep - 16, l) && ep != Cell(l) ==> Placed(s.H, s.base, s.top, ep - 16);
    assert InList(s.H, e - 16, l) && After(s.H, l, ep, e - 16);
  }

  lemma GetRest(s: State, t: int, p: int)
    requires Sound(s) && 0 <= t < |s.slots| && InList(s.H, p, TList(t))
    ensures var H' := s.H[p := Chunk(s.H[p].n, Live)];
            && Marks(s.binmap, H') && Slots(s.slots[t := s.slots[t] + 1], H')
            && LiveOf(H') == LiveOf(s.H)[p := s.H[p].n]
  {
    var l, H' := TList(t), s.H[p := Chunk(s.H[p].n, Live)];
    forall b, x | 2 <= b <= 126 && InBin(H', x, b) ensures Marked(s.binmap, b) {
      assert InBin(s.H, x, b);
    }
    forall k ensures Members(H', k) == if k == l then Members(s.H, l) - {p} else Members(s.H, k) {
      forall x ensures x in Members(H', k) <==> x in Members(s.H, k) && x != p {
        assert InList(H', x, k) <==> InList(s.H, x, k) && x != p;
      }
    }
    assert p in Members(s.H, l);
  }

  // ---------------------------------------------------------------- the cache operations

  lemma BkStored(m: Mem, p: int, v: int)
    ensures m.SetBk(p, v).Bk(p) == v && (p >= HEAP_MIN ==> m.SetBk(p, v).Head(Hdr(UNSORTED)) == m.Head(Hdr(UNSORTED)))
  {}

  /** `tcache_put_n`: the block joins bin t behind the cell `ep`. */
  method TcachePutN(av: MallocState, chunk: int, t: int, ep: int, mangled: bool)
    requires Enterable(av.S(), chunk, t, ep) && av.Ok() && (mangled <==> ep != Cell(TList(t)))
    modifies av`m, av`H, av`numSlots
    ensures av.Ok() && av.H == old(PutHeap(av.S(), chunk, t, ep))
    ensures av.numSlots == old(av.numSlots)[t := old(av.numSlots)[t] - 1]
    ensures LiveOf(av.H) == old(LiveOf(av.H)) - {chunk} && Kept(old(av.m), av.m, LiveOf(av.H))
    ensures EntersAt(old(av.S()), av.H, t, ep, chunk) && av.m.Bk(chunk) == av.tcacheKey
    ensures av.m.Head(Hdr(UNSORTED)) == old(av.m.Head(Hdr(UNSORTED)))
  {
    hide Sound, Kept, LiveOf, Put, PutHeap, Pointee, IsCell, ListSize, Mask, EntersAt;
    ghost var s0 := av.S();
    PutSound(s0, chunk, t, ep, mangled, av.tcacheKey);
    AboveHeaders(s0, chunk);
    BkStored(av.m, chunk, av.tcacheKey);
    var e := chunk + 16;
    av.m := av.m.SetBk(chunk, av.tcacheKey);
    if !mangled {
      av.m := Mem(Put(av.m.e, e, Mask(e, av.m.e(ep))), av.m.o);
      av.m := Mem(Put(av.m.e, ep, e), av.m.o);
    } else {
      av.m := Mem(Put(av.m.e, e, Mask(e, Mask(ep, av.m.e(ep)))), av.m.o);
      av.m := Mem(Put(av.m.e, ep, Mask(ep, e)), av.m.o);
    }
    av.numSlots := av.numSlots[t := av.numSlots[t] - 1];
    av.H := PutHeap(s0, chunk, t, ep);
    PutEnters(s0, av.S(), chunk, t, ep);
  }

  lemma AboveHeaders(s: State, p: int)
    requires Sound(s) && p in s.H
    ensures p >= HEAP_MIN
  {
    CoreLow(s.m, s.H, s.base, s.top);
  }

  /** `tcache_get_n`: the entry behind the cell `ep` leaves bin t. */
  method TcacheGetN(av: MallocState, t: int, ep: int, mangled: bool) returns (e: int)
    requires Gettable(av.S(), t, ep) && av.Ok() && (mangled <==> ep != Cell(TList(t)))
    modifies av`m, av`H, av`numSlots
    ensures e == old(Pointee(av.m, TList(t), ep)) && InList(old(av.H), e - 16, TList(t))
    ensures av.Ok() && av.H == old(av.H)[e - 16 := Chunk(old(av.H)[e - 16].n, Live)]
    ensures av.numSlots == old(av.numSlots)[t := old(av.numSlots)[t] + 1]
    ensures LiveOf(av.H) == old(LiveOf(av.H))[e - 16 := old(av.H)[e - 16].n] && Kept(old(av.m), av.m, old(LiveOf(av.H)))
    ensures LeavesAt(old(av.S()), av.H, t, ep, e - 16) && av.m.Bk(e - 16) == 0 && av.m.Head(Hdr(UNSORTED)) == old(av.m.Head(Hdr(UNSORTED)))
  {
    hide Sound, Kept, LiveOf, Put, LeavesAt;
    ghost var s0 := av.S();
    GetSound(s0, t, ep, mangled);
    if !mangled {
      e := av.m.e(ep);
    } else {
      e := Mask(ep, av.m.e(ep));
    }
    if e % 16 != 0 {
      assert false; // malloc(): unaligned tcache chunk detected
    }
    if !mangled {
      av.m := Mem(Put(av.m.e, ep, Mask(e, av.m.e(e))), av.m.o);
    } else {
      av.m := Mem(Put(av.m.e, ep, Mask(ep, Mask(e, av.m.e(e)))), av.m.o);
    }
    av.numSlots := av.numSlots[t := av.numSlots[t] + 1];
    AboveHeaders(s0, e - 16);
    BkStored(av.m, e - 16, 0);
    av.m := av.m.SetBk(e - 16, 0);
    av.H := av.H[e - 16 := Chunk(av.H[e - 16].n, Live)];
    GetLeaves(s0, av.S(), t, ep);
  }

  // ---------------------------------------------------------------- the cache as a table of sequences

  /** Entry k of bin t is the one behind the cell ep; the last cell is behind the last entry. */
  ghost predicate PlaceOf(H: Heap, t: int, ep: int, k: nat) {
    var L := Entries(H, TList(t));
    k <= |L| && ep == if k == 0 then Cell(TList(t)) else L[k - 1] + 16
  }

  /** The block `p` has come to bin t behind the cell ep; all other bins are what they were. */
  ghost predicate EntersAt(s: State, H': Heap, t: int, ep: int, p: int) {
    exists k: nat {:trigger PlaceOf(s.H, t, ep, k)} :: PlaceOf(s.H, t, ep, k)
      && forall l {:trigger Entries(H', l)} :: Entries(H', l) == if l == TList(t) then Insert(Entries(s.H, l), k, p) else Entries(s.H, l)
  }

  /** The block `p` behind the cell ep of bin t is gone from it; all other bins are what they were. */
  ghost predicate LeavesAt(s: State, H': Heap, t: int, ep: int, p: int) {
    exists k: nat {:trigger PlaceOf(s.H, t, ep, k)} :: PlaceOf(s.H, t, ep, k)
      && k < |Entries(s.H, TList(t))| && Entries(s.H, TList(t))[k] == p
      && forall l {:trigger Entries(H', l)} :: Entries(H', l) == if l == TList(t) then Delete(Entries(s.H, l), k) else Entries(s.H, l)
  }

  lemma PutEnters(s: State, s1: State, p: int, t: int, ep: int)
    requires Enterable(s, p, t, ep) && Sound(s1) && s1.H == PutHeap(s, p, t, ep)
    ensures EntersAt(s, s1.H, t, ep, p)
  {
    hide Sound, Entries, Lists, IsCell;
    SoundLists(s);
    SoundLists(s1);
    var r := PutRank(s, t, ep);
    var k := CellPlace(s.m, s.H, TList(t), ep);
    EntriesSpell(s.H, TList(t));
    CellHead(s.H, TList(t));
    assert PlaceOf(s.H, t, ep, k);
    forall l ensures Entries(s1.H, l) == if l == TList(t) then Insert(Entries(s.H, l), k, p) else Entries(s.H, l) {
      EntriesInsert(s.H, s1.H, p, TList(t), r, k, l);
    }
  }

  lemma GetLeaves(s: State, s1: State, t: int, ep: int)
    requires Gettable(s, t, ep) && Sound(s1)
    requires var p := Pointee(s.m, TList(t), ep) - 16; InList(s.H, p, TList(t)) && s1.H == s.H[p := Chunk(s.H[p].n, Live)]
    ensures LeavesAt(s, s1.H, t, ep, Pointee(s.m, TList(t), ep) - 16)
  {
    hide Sound, Entries, Lists, IsCell;
    SoundLists(s);
    SoundLists(s1);
    var p := Pointee(s.m, TList(t), ep) - 16;
    var k := CellPlace(s.m, s.H, TList(t), ep);
    assert PlaceOf(s.H, t, ep, k);
    forall l ensures Entries(s1.H, l) == if l == TList(t) then Delete(Entries(s.H, l), k) else Entries(s.H, l) {
      EntriesDelete(s.H, s1.H, p, TList(t), k, l);
    }
  }

  /** The links of bin t, decoded from its head on, run through L and end with null. */
  ghost predicate ReadsAs(m: Mem, t: int, L: seq<int>) {
    forall k: nat {:trigger Next(L, t, k)} :: k <= |L| ==> Pointee(m, TList(t), Next(L, t, k)) == if k < |L| then L[k] + 16 else NULL
  }

  /** The blocks in L have the size of bin t, or in a large bin a size of its class, smallest first and
      less than a factor of two apart. */
  ghost predicate Graded(H: Heap, t: int, L: seq<int>) {
    && (forall i {:trigger L[i]} :: 0 <= i < |L| ==> L[i] in H && ListSize(TList(t), H[L[i]].n))
    && (forall i, j {:trigger L[i], L[j]} :: 0 <= i <= j < |L| && L[i] in H && L[j] in H ==> H[L[i]].n <= H[L[j]].n < 2 * H[L[i]].n)
  }

  /** At any time bin t stands for a sequence of blocks that belong there, as many as slots are used. */
  lemma CacheRefines(s: State, t: int)
    requires Sound(s) && 0 <= t < |s.slots|
    ensures var L := Entries(s.H, TList(t)); ReadsAs(s.m, t, L) && Graded(s.H, t, L) && |L| + s.slots[t] == TCACHE_FILL_COUNT
  {
    hide Graded, Entries;
    SoundLists(s);
    var L := Entries(s.H, TList(t));
    EntriesSpell(s.H, TList(t));
    assert Chunks(s.H, TList(t)) == Members(s.H, TList(t));
    forall k: nat | k <= |L| ensures Pointee(s.m, TList(t), Next(L, t, k)) == if k < |L| then L[k] + 16 else NULL {
      EntriesDecoded(s.m, s.H, TList(t), k);
    }
    EntriesGraded(s, t);
  }

  lemma EntriesGraded(s: State, t: int)
    requires Sound(s) && 0 <= t < |s.slots|
    ensures Graded(s.H, t, Entries(s.H, TList(t)))
  {
    hide Entries, Sound, Lists;
    SoundLists(s);
    var L := Entries(s.H, TList(t));
    EntriesSpell(s.H, TList(t));
    forall i | 0 <= i < |L| ensures L[i] in s.H && ListSize(TList(t), s.H[L[i]].n) && s.H[L[i]].n >= MINSIZE {
      EntryOk(s, L[i], TList(t));
    }
    forall i, j | 0 <= i <= j < |L| ensures s.H[L[i]].n <= s.H[L[j]].n < 2 * s.H[L[i]].n {
      SortedEntries(s, t, i, j);
      if t >= TCACHE_SMALL_BINS {
        Log2Double(s.H[L[i]].n, s.H[L[j]].n);
      }
    }
  }

  lemma EntryOk(s: State, p: int, l: int)
    requires Sound(s) && InList(s.H, p, l)
    ensures ListSize(l, s.H[p].n) && s.H[p].n >= MINSIZE
  {
    hide Marks, Slots, Fresh;
    assert SingleOk(s.H, p);
    ChunkSize(s, p);
  }

  lemma SortedEntries(s: State, t: int, i: nat, j: nat)
    requires Sound(s) && 0 <= t < TCACHE_MAX_BINS && i <= j < |Entries(s.H, TList(t))|
    ensures var L := Entries(s.H, TList(t)); L[i] in s.H && L[j] in s.H && s.H[L[i]].n <= s.H[L[j]].n
  {
    SoundLists(s);
    var L := Entries(s.H, TList(t));
    EntriesSpell(s.H, TList(t));
    assert InList(s.H, L[i], TList(t)) && InList(s.H, L[j], TList(t));
    assert i < j ==> Rank(s.H, L[i]) < Rank(s.H, L[j]);
    assert L[i] != L[j] ==> SingleOrd(s.H, L[i], L[j]);
  }

  /** The cell in front of entry k. */
  function Next(L: seq<int>, t: int, k: nat): int
    requires k <= |L|
  {
    if k == 0 then Cell(TList(t)) else L[k - 1] + 16
  }

  lemma FrontPlace(s: State, t: int, k: nat)
    requires Sound(s) && 0 <= t < TCACHE_MAX_BINS && PlaceOf(s.H, t, Cell(TList(t)), k)
    ensures k == 0
  {
    SoundLists(s);
    EntriesSpell(s.H, TList(t));
    CellHead(s.H, TList(t));
    var L := Entries(s.H, TList(t));
    forall i | 0 <= i < |L| ensures L[i] + 16 != Cell(TList(t)) {
      assert InList(s.H, L[i], TList(t));
    }
  }

  lemma PutFront(s: State, H': Heap, t: int, p: int)
    requires Sound(s) && 0 <= t < TCACHE_MAX_BINS && EntersAt(s, H', t, Cell(TList(t)), p)
    ensures EntersFront(s.H, H', TList(t), p)
  {
    hide Sound, Entries;
    var k: nat :| PlaceOf(s.H, t, Cell(TList(t)), k)
      && forall l {:trigger Entries(H', l)} :: Entries(H', l) == if l == TList(t) then Insert(Entries(s.H, l), k, p) else Entries(s.H, l);
    FrontPlace(s, t, k);
    assert Insert(Entries(s.H, TList(t)), 0, p) == [p] + Entries(s.H, TList(t));
  }

  lemma GetFront(s: State, H': Heap, t: int, p: int)
    requires Sound(s) && 0 <= t < TCACHE_MAX_BINS && LeavesAt(s, H', t, Cell(TList(t)), p)
    ensures LeavesFront(s.H, H', TList(t), p)
  {
    hide Sound, Entries;
    var k: nat :| PlaceOf(s.H, t, Cell(TList(t)), k)
      && k < |Entries(s.H, TList(t))| && Entries(s.H, TList(t))[k] == p
      && forall l {:trigger Entries(H', l)} :: Entries(H', l) == if l == TList(t) then Delete(Entries(s.H, l), k) else Entries(s.H, l);
    FrontPlace(s, t, k);
    var L := Entries(s.H, TList(t));
    assert L == [p] + Delete(L, 0);
    forall l ensures Entries(s.H, l) == if l == TList(t) then [p] + Entries(H', l) else Entries(H', l) {
      assert Entries(H', l) == Entries(H', l);
    }
  }

  /** Among the entries of bin t, those before place k are smaller than nb, the others are not. */
  ghost predicate SizePlace(H: Heap, t: int, nb: int, k: nat) {
    var L := Entries(H, TList(t));
    && k <= |L|
    && forall i {:trigger L[i]} :: 0 <= i < |L| ==> L[i] in H && (H[L[i]].n < nb <==> i < k)
  }

  /** Block `p` has come to bin t in front of the first entry that is not smaller. */
  ghost predicate EntersSorted(H: Heap, H': Heap, t: int, p: int, n: int) {
    exists k: nat {:trigger SizePlace(H, t, n, k)} :: SizePlace(H, t, n, k)
      && forall l {:trigger Entries(H', l)} :: Entries(H', l) == if l == TList(t) then Insert(Entries(H, l), k, p) else Entries(H, l)
  }

  /** The first entry of bin t that is not smaller than nb, `p`, is gone. */
  ghost predicate LeavesSorted(H: Heap, H': Heap, t: int, p: int, nb: int) {
    exists k: nat {:trigger SizePlace(H, t, nb, k)} :: SizePlace(H, t, nb, k)
      && k < |Entries(H, TList(t))| && Entries(H, TList(t))[k] == p
      && forall l {:trigger Entries(H', l)} :: Entries(H', l) == if l == TList(t) then Delete(Entries(H, l), k) else Entries(H, l)
  }

  lemma LocatedPlace(s: State, t: int, nb: int, ep: int, k: nat)
    requires Sound(s) && 0 <= t < TCACHE_MAX_BINS && Located(s.m, s.H, TList(t), nb, ep) && PlaceOf(s.H, t, ep, k)
    ensures SizePlace(s.H, t, nb, k)
  {
    hide Sound, Entries;
    SoundLists(s);
    var L := Entries(s.H, TList(t));
    EntriesSpell(s.H, TList(t));
    CellHead(s.H, TList(t));
    EntriesDecoded(s.m, s.H, TList(t), k);
    forall i | 0 <= i < |L| ensures L[i] in s.H && (s.H[L[i]].n < nb <==> i < k) {
      assert InList(s.H, L[i], TList(t));
      if i < k {
        SortedEntries(s, t, i, k - 1);
      } else {
        SortedEntries(s, t, k, i);
      }
    }
  }

  ghost function Beyond(H: Heap, l: int, a: int): set<int> {
    set q | q in H && InList(H, q, l) && After(H, l, a, q)
  }

  /** Stepping to the next cell leaves fewer chunks ahead. */
  lemma StepAhead(m: Mem, H: Heap, l: int, a: int)
    requires Lists(m, H) && Low(H) && 0 <= l < 86 && IsCell(H, l, a) && Pointee(m, l, a) != NULL && l >= NFASTBINS
    ensures var s := Pointee(m, l, a) - 16;
            && InList(H, s, l) && |Beyond(H, l, s + 16)| < |Beyond(H, l, a)| && s + 16 != Cell(l) && s >= HEAP_MIN
  {
    assert ListAt(m, H, l, a);
    var s := Pointee(m, l, a) - 16;
    forall q | q in Beyond(H, l, s + 16) ensures q in Beyond(H, l, a) && q != s {
      assert InList(H, a - 16, l) ==> a != Cell(l);
    }
    assert s in Beyond(H, l, a) && s !in Beyond(H, l, s + 16);
    assert Beyond(H, l, s + 16) <= Beyond(H, l, a) - {s};
    CardSub(Beyond(H, l, s + 16), Beyond(H, l, a) - {s});
  }

  lemma CardSub(a: set<int>, b: set<int>)
    requires a <= b
    ensures |a| <= |b|
  {
    assert b == a + (b - a) && a !! (b - a);
  }

  /** The first cell of large bin t whose entry has at least nb bytes, or the last cell. */
  ghost predicate Located(m: Mem, H: Heap, l: int, nb: int, ep: int) {
    && IsCell(H, l, ep) && (ep != Cell(l) ==> H[ep - 16].n < nb)
    && (Pointee(m, l, ep) != NULL ==> InList(H, Pointee(m, l, ep) - 16, l) && H[Pointee(m, l, ep) - 16].n >= nb)
  }

  lemma EntrySize(s: State, t: int, ep: int)
    requires Gettable(s, t, ep)
    ensures var p := Pointee(s.m, TList(t), ep) - 16; InList(s.H, p, TList(t)) && s.m.Size(p) == s.H[p].n
    ensures Lists(s.m, s.H) && Low(s.H)
  {
    var p := Pointee(s.m, TList(t), ep) - 16;
    CoreLow(s.m, s.H, s.base, s.top);
    assert ListAt(s.m, s.H, TList(t), ep);
    assert Placed(s.H, s.base, s.top, p) && TagAt(s.m, s.H, s.top, p);
    HeadDecodes(s.m, p, s.H[p].n);
  }

  /** `tcache_location_large`. */
  method TcacheLocationLarge(av: MallocState, nb: int, t: int) returns (tep: int, mangled: bool)
    requires av.Ok() && 0 <= t < |av.numSlots|
    ensures Located(av.m, av.H, TList(t), nb, tep) && (mangled <==> tep != Cell(TList(t)))
  {
    hide Links, Body, Marks, Fresh, TopOk;
    ghost var s := av.S();
    tep := Cell(TList(t));
    var te := av.m.e(tep);
    mangled := false;
    while te != NULL && av.m.Size(te - 16) < nb
      invariant te == Pointee(av.m, TList(t), tep) && IsCell(av.H, TList(t), tep) && (mangled <==> tep != Cell(TList(t)))
      invariant tep != Cell(TList(t)) ==> av.H[tep - 16].n < nb
      decreases |Beyond(av.H, TList(t), tep)|
    {
      EntrySize(s, t, tep);
      StepAhead(av.m, av.H, TList(t), tep);
      tep := te;
      te := Mask(te, av.m.e(te));
      mangled := true;
    }
    if te != NULL {
      EntrySize(s, t, tep);
    }
  }

  /** `tcache_put`: push onto the small bin of the block's size. */
  method TcachePut(av: MallocState, chunk: int, t: int)
    requires av.Ok() && chunk in LiveOf(av.H) && 0 <= t < |av.numSlots| && av.numSlots[t] > 0
    requires t < TCACHE_SMALL_BINS && av.H[chunk].n == 16 * t + MINSIZE
    modifies av`m, av`H, av`numSlots
    ensures av.Ok() && InList(av.H, chunk, TList(t)) && av.H == old(av.H)[chunk := av.H[chunk]] && av.H[chunk].n == old(av.H)[chunk].n
    ensures av.numSlots == old(av.numSlots)[t := old(av.numSlots)[t] - 1]
    ensures LiveOf(av.H) == old(LiveOf(av.H)) - {chunk} && Kept(old(av.m), av.m, LiveOf(av.H))
    ensures EntersFront(old(av.H), av.H, TList(t), chunk) && av.m.Bk(chunk) == av.tcacheKey
    ensures av.m.Head(Hdr(UNSORTED)) == old(av.m.Head(Hdr(UNSORTED)))
  {
    hide Kept, Put, EntersAt, EntersFront;
    ghost var s := av.S();
    SmallEnterable(s, chunk, t);
    TcachePutN(av, chunk, t, Cell(TList(t)), false);
    PutFront(s, av.H, t, chunk);
  }

  lemma SmallEnterable(s: State, p: int, t: int)
    requires Sound(s) && p in LiveOf(s.H) && 0 <= t < |s.slots| && s.slots[t] > 0
    requires t < TCACHE_SMALL_BINS && s.H[p].n == 16 * t + MINSIZE
    ensures Enterable(s, p, t, Cell(TList(t)))
  {
    CoreLow(s.m, s.H, s.base, s.top);
    var l := TList(t);
    assert ListAt(s.m, s.H, l, Cell(l)) && !InList(s.H, Cell(l) - 16, l);
    var v := Pointee(s.m, l, Cell(l));
    if v != NULL {
      assert SingleOk(s.H, v - 16);
    }
  }

  /** `tcache_get`: pop the newest entry of a small bin. */
  method TcacheGet(av: MallocState, t: int) returns (e: int)
    requires av.Ok() && 0 <= t < |av.numSlots| && t < TCACHE_SMALL_BINS && av.m.e(Cell(TList(t))) != NULL
    modifies av`m, av`H, av`numSlots
    ensures InList(old(av.H), e - 16, TList(t)) && old(av.H)[e - 16].n == 16 * t + MINSIZE
    ensures av.Ok() && av.H == old(av.H)[e - 16 := Chunk(old(av.H)[e - 16].n, Live)]
    ensures av.numSlots == old(av.numSlots)[t := old(av.numSlots)[t] + 1]
    ensures LiveOf(av.H) == old(LiveOf(av.H))[e - 16 := old(av.H)[e - 16].n] && Kept(old(av.m), av.m, old(LiveOf(av.H)))
    ensures LeavesFront(old(av.H), av.H, TList(t), e - 16) && av.m.Bk(e - 16) == 0 && av.m.Head(Hdr(UNSORTED)) == old(av.m.Head(Hdr(UNSORTED)))
  {
    hide Kept, Put, LiveOf, LeavesAt, LeavesFront;
    ghost var s0 := av.S();
    e := TcacheGetN(av, t, Cell(TList(t)), false);
    GetFront(s0, av.H, t, e - 16);
    assert SingleOk(s0.H, e - 16);
  }

  /** `tcache_put_large`: insert in size order. */
  method TcachePutLarge(av: MallocState, chunk: int, t: int)
    requires av.Ok() && chunk in LiveOf(av.H) && 0 <= t < |av.numSlots| && av.numSlots[t] > 0
    requires t >= TCACHE_SMALL_BINS && LargeTidx(av.H[chunk].n) == t
    modifies av`m, av`H, av`numSlots
    ensures av.Ok() && InList(av.H, chunk, TList(t)) && av.H == old(av.H)[chunk := av.H[chunk]] && av.H[chunk].n == old(av.H)[chunk].n
    ensures av.numSlots == old(av.numSlots)[t := old(av.numSlots)[t] - 1]
    ensures LiveOf(av.H) == old(LiveOf(av.H)) - {chunk} && Kept(old(av.m), av.m, LiveOf(av.H))
    ensures EntersSorted(old(av.H), av.H, t, chunk, av.H[chunk].n) && av.m.Bk(chunk) == av.tcacheKey
  {
    hide Kept, Put, EntersAt, EntersSorted;
    ghost var s := av.S();
    ChunkSize(s, chunk);
    var entry, mangled := TcacheLocationLarge(av, av.m.Size(chunk), t);
    LargeEnterable(s, chunk, t, entry);
    TcachePutN(av, chunk, t, entry, mangled);
    PutSorted(s, av.H, t, entry, chunk, s.H[chunk].n);
  }

  lemma PutSorted(s: State, H': Heap, t: int, ep: int, p: int, n: int)
    requires Sound(s) && 0 <= t < TCACHE_MAX_BINS && Located(s.m, s.H, TList(t), n, ep) && EntersAt(s, H', t, ep, p)
    ensures EntersSorted(s.H, H', t, p, n)
  {
    hide Sound, Entries, Located;
    var k: nat :| PlaceOf(s.H, t, ep, k)
      && forall l {:trigger Entries(H', l)} :: Entries(H', l) == if l == TList(t) then Insert(Entries(s.H, l), k, p) else Entries(s.H, l);
    LocatedPlace(s, t, n, ep, k);
  }

  lemma GetSorted(s: State, H': Heap, t: int, ep: int, p: int, nb: int)
    requires Sound(s) && 0 <= t < TCACHE_MAX_BINS && Located(s.m, s.H, TList(t), nb, ep) && LeavesAt(s, H', t, ep, p)
    ensures LeavesSorted(s.H, H', t, p, nb)
  {
    hide Sound, Entries, Located;
    var k: nat :| PlaceOf(s.H, t, ep, k)
      && k < |Entries(s.H, TList(t))| && Entries(s.H, TList(t))[k] == p
      && forall l {:trigger Entries(H', l)} :: Entries(H', l) == if l == TList(t) then Delete(Entries(s.H, l), k) else Entries(s.H, l);
    LocatedPlace(s, t, nb, ep, k);
  }

  lemma ChunkSize(s: State, p: int)
    requires Sound(s) && p in s.H && !s.H[p].st.Raw? && !s.H[p].st.Gap?
    ensures s.m.Size(p) == s.H[p].n && s.H[p].n % 16 == 0 && s.H[p].n >= 16 && p % 16 == 0 && p >= HEAP_MIN
    ensures s.H[p].st.Live? || s.H[p].st.Listed? ==> s.H[p].n >= MINSIZE
    ensures s.top != Hdr(UNSORTED)
  {
    assert Placed(s.H, s.base, s.top, p) && TagAt(s.m, s.H, s.top, p);
    HeadDecodes(s.m, p, s.H[p].n);
  }

  lemma LargeEnterable(s: State, p: int, t: int, ep: int)
    requires Sound(s) && p in LiveOf(s.H) && 0 <= t < |s.slots| && s.slots[t] > 0
    requires t >= TCACHE_SMALL_BINS && LargeTidx(s.H[p].n) == t && Located(s.m, s.H, TList(t), s.H[p].n, ep)
    ensures Enterable(s, p, t, ep)
  {
    CoreLow(s.m, s.H, s.base, s.top);
    assert !InList(s.H, Cell(TList(t)) - 16, TList(t));
  }

  /** The entry found is the smallest of the bin that is large enough; none found means there is none. */
  ghost predicate BestCached(H: Heap, l: int, nb: int, p: int) {
    && InList(H, p, l) && H[p].n >= nb
    && forall q {:trigger InList(H, q, l)} :: InList(H, q, l) && H[q].n >= nb ==> H[p].n <= H[q].n
  }

  lemma LocatedBest(s: State, t: int, nb: int, ep: int)
    requires Sound(s) && 0 <= t < |s.slots| && Located(s.m, s.H, TList(t), nb, ep)
    ensures var v := Pointee(s.m, TList(t), ep);
            if v == NULL then forall q {:trigger InList(s.H, q, TList(t))} :: InList(s.H, q, TList(t)) ==> s.H[q].n < nb
            else BestCached(s.H, TList(t), nb, v - 16)
  {
    var l := TList(t);
    var v := Pointee(s.m, l, ep);
    assert ListAt(s.m, s.H, l, ep);
    forall q | InList(s.H, q, l) && s.H[q].n >= nb ensures v != NULL && s.H[v - 16].n <= s.H[q].n {
      if ep != Cell(l) {
        assert q != ep - 16 ==> SingleOrd(s.H, q, ep - 16);
      }
      assert After(s.H, l, ep, q);
      assert q != v - 16 ==> SingleOrd(s.H, v - 16, q);
    }
  }

  /** `tcache_get_large`: the smallest cached block of at least nb bytes, or NULL if there is none. */
  method TcacheGetLarge(av: MallocState, t: int, nb: int) returns (e: int)
    requires av.Ok() && 0 <= t < |av.numSlots| && t >= TCACHE_SMALL_BINS
    modifies av`m, av`H, av`numSlots
    ensures av.Ok()
    ensures e == NULL ==> av.m == old(av.m) && av.H == old(av.H) && av.numSlots == old(av.numSlots)
                          && forall q {:trigger InList(av.H, q, TList(t))} :: InList(av.H, q, TList(t)) ==> av.H[q].n < nb
    ensures e != NULL ==>
        && BestCached(old(av.H), TList(t), nb, e - 16)
        && av.H == old(av.H)[e - 16 := Chunk(old(av.H)[e - 16].n, Live)]
        && av.numSlots == old(av.numSlots)[t := old(av.numSlots)[t] + 1]
        && LiveOf(av.H) == old(LiveOf(av.H))[e - 16 := old(av.H)[e - 16].n] && Kept(old(av.m), av.m, old(LiveOf(av.H)))
        && LeavesSorted(old(av.H), av.H, t, e - 16, nb) && av.m.Bk(e - 16) == 0
  {
    hide Kept, Put, LiveOf, LeavesAt, LeavesSorted;
    ghost var s := av.S();
    var entry, mangled := TcacheLocationLarge(av, nb, t);
    LocatedBest(av.S(), t, nb, entry);
    if (mangled && Mask(entry, av.m.e(entry)) == NULL) || (!mangled && av.m.e(entry) == NULL) {
      return NULL;
    }
    EntrySize(av.S(), t, entry);
    ChunkSize(av.S(), Pointee(av.m, TList(t), entry) - 16);
    e := TcacheGetN(av, t, entry, mangled);
    GetSorted(s, av.H, t, entry, e - 16, nb);
  }

  /** `tcache_get_align` once the bin is known: the first entry of exactly nb bytes at a suitable
      address, or NULL. */
  method TcacheGetAlign(av: MallocState, t: int, nb: int, alignment: int) returns (e: int)
    requires av.Ok() && 0 <= t < |av.numSlots| && alignment > 0
    modifies av`m, av`H, av`numSlots
    ensures av.Ok()
    ensures e == NULL ==> av.m == old(av.m) && av.H == old(av.H) && av.numSlots == old(av.numSlots)
                          && forall q {:trigger InList(av.H, q, TList(t))} :: InList(av.H, q, TList(t)) && av.H[q].n == nb ==> (q + 16) % alignment != 0
    ensures e != NULL ==>
        && InList(old(av.H), e - 16, TList(t)) && old(av.H)[e - 16].n == nb && e % alignment == 0
        && av.H == old(av.H)[e - 16 := Chunk(nb, Live)]
        && LiveOf(av.H) == old(LiveOf(av.H))[e - 16 := nb] && Kept(old(av.m), av.m, old(LiveOf(av.H)))
        && av.numSlots == old(av.numSlots)[t := old(av.numSlots)[t] + 1] && av.m.Bk(e - 16) == 0
        && exists ep {:trigger LeavesAt(old(av.S()), av.H, t, ep, e - 16)} ::
             LeavesAt(old(av.S()), av.H, t, ep, e - 16) && Skips(old(av.S()), t, nb, alignment, ep)
  {
    hide Kept, Put, LiveOf, Body, Marks, Fresh, TopOk, LeavesAt;
    ghost var s := av.S();
    ghost var l := TList(t);
    var tep := Cell(TList(t));
    var te := av.m.e(tep);
    var mangled := false;
    while te != NULL && (av.m.Size(te - 16) < nb || (av.m.Size(te - 16) == nb && te % alignment != 0))
      invariant av.S() == s && av.Ok()
      invariant te == Pointee(av.m, l, tep) && IsCell(av.H, l, tep) && (mangled <==> tep != Cell(l))
      invariant tep != Cell(l) ==> av.H[tep - 16].n <= nb
      invariant Skips(s, t, nb, alignment, tep)
      decreases |Beyond(av.H, l, tep)|
    {
      EntrySize(s, t, tep);
      StepAhead(av.m, av.H, l, tep);
      SkipsStep(s, t, nb, alignment, tep);
      tep := te;
      te := Mask(te, av.m.e(te));
      mangled := true;
    }
    if te != NULL {
      EntrySize(s, t, tep);
    }
    if te != NULL && av.m.Size(te - 16) == nb && te % alignment == 0 {
      e := TcacheGetN(av, t, tep, mangled);
      return;
    }
    SkipsEnd(s, t, nb, alignment, tep);
    return NULL;
  }

  /** No entry up to the cell has size nb and a suitable address. */
  ghost predicate Skips(s: State, t: int, nb: int, alignment: int, tep: int)
    requires alignment > 0
  {
    forall q {:trigger InList(s.H, q, TList(t))} ::
      InList(s.H, q, TList(t)) && !After(s.H, TList(t), tep, q) && s.H[q].n == nb ==> (q + 16) % alignment != 0
  }

  lemma SkipsStep(s: State, t: int, nb: int, alignment: int, tep: int)
    requires Gettable(s, t, tep) && alignment > 0 && Skips(s, t, nb, alignment, tep)
    requires var v := Pointee(s.m, TList(t), tep); s.m.Size(v - 16) != nb || v % alignment != 0
    ensures Skips(s, t, nb, alignment, Pointee(s.m, TList(t), tep))
  {
    var l := TList(t);
    var p := Pointee(s.m, l, tep) - 16;
    EntrySize(s, t, tep);
    assert ListAt(s.m, s.H, l, tep);
    forall q | InList(s.H, q, l) && !After(s.H, l, p + 16, q) && s.H[q].n == nb ensures (q + 16) % alignment != 0 {
      assert q != p ==> SingleOrd(s.H, q, p);
      assert After(s.H, l, tep, q) ==> s.H[p].st.r <= s.H[q].st.r;
    }
  }

  lemma SkipsEnd(s: State, t: int, nb: int, alignment: int, tep: int)
    requires Sound(s) && 0 <= t < |s.slots| && IsCell(s.H, TList(t), tep) && alignment > 0 && Skips(s, t, nb, alignment, tep)
    requires var v := Pointee(s.m, TList(t), tep); v != NULL ==> InList(s.H, v - 16, TList(t)) && s.H[v - 16].n > nb
    ensures forall q {:trigger InList(s.H, q, TList(t))} :: InList(s.H, q, TList(t)) && s.H[q].n == nb ==> (q + 16) % alignment != 0
  {
    var l := TList(t);
    var v := Pointee(s.m, l, tep);
    assert ListAt(s.m, s.H, l, tep);
    forall q | InList(s.H, q, l) && s.H[q].n == nb ensures (q + 16) % alignment != 0 {
      assert q != v - 16 ==> SingleOrd(s.H, v - 16, q);
    }
  }
}
