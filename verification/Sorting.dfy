/** What working off the unsorted list comes to: how far it goes, which chunk is handed out, which ones go to the
    thread cache, and that all others are put into their bins. */
module Sorting {
  import opened Sizes
  import opened Memory
  import opened Heap
  import opened RingProofs
  import opened Arena
  import opened Consolidate
  import opened Tcache
  import opened ListEntries
  import opened FreeChunk
  import opened ExactFit
  import opened Shelves

  const MAX_ITERS := 10000

  /** What it goes by: the padded size asked for, how many chunks of just that size the cache has room for, how
      many chunks an earlier pass has binned, and after how many of them a cached one is handed out at once
      (0 for never). */
  datatype Task = Task(nb: int, room: nat, seen: nat, limit: nat) {
    function Bin(): int { (nb - MINSIZE) / 16 }
  }

  /** The free slots of bin t of the cache, if there is a cache for it. */
  function Room(stash: bool, slots: seq<int>, t: int): nat {
    if stash && 0 <= t < |slots| && slots[t] >= 0 then slots[t] else 0
  }

  /** The unsorted chunks in the order in which they are looked at: from the last on. */
  ghost function Queue(H: Heap): seq<int> {
    Backwards(BinEntries(H, UNSORTED))
  }

  ghost predicate Fits(H: Heap, p: int, nb: int) {
    p in H && H[p].n == nb
  }

  /** Those of the first k chunks of U that are of just the size. */
  ghost function Fitting(H: Heap, U: seq<int>, k: nat, nb: int): (E: seq<int>)
    requires k <= |U|
    ensures |E| <= k
  {
    if k == 0 then []
    else if Fits(H, U[k - 1], nb) then Fitting(H, U, k - 1, nb) + [U[k - 1]]
    else Fitting(H, U, k - 1, nb)
  }

  /** After k chunks there is one more of the size than the cache has room for, or enough others were binned. */
  ghost predicate Full(H: Heap, U: seq<int>, w: Task, k: nat)
    requires k <= |U|
  {
    var fits := |Fitting(H, U, k, w.nb)|;
    || fits > w.room || k - fits >= MAX_ITERS
    || (w.limit > 0 && 0 < fits < k && w.seen + k - fits > w.limit && !Fits(H, U[k - 1], w.nb))
  }

  /** What is left after k chunks is just the last remainder, with more than enough for a small request. */
  ghost predicate Splits(s: State, nb: int, k: nat) {
    var U := Queue(s.H);
    InSmallRange(nb) && k + 1 == |U| && U[k] == s.m.Head(Hdr(UNSORTED)) && U[k] in s.H && s.H[U[k]].n > nb + MINSIZE
  }

  /** How many chunks are worked off, if k of them have been. */
  ghost function End(s: State, w: Task, k: nat): (n: nat)
    requires k <= |Queue(s.H)|
    ensures k <= n <= |Queue(s.H)|
    decreases |Queue(s.H)| - k
  {
    if k == |Queue(s.H)| || Full(s.H, Queue(s.H), w, k) || Splits(s, w.nb, k) then k else End(s, w, k + 1)
  }

  /** In the end the request is cut from the last remainder. */
  ghost predicate Cuts(s: State, w: Task) {
    var k := End(s, w, 0);
    !Full(s.H, Queue(s.H), w, k) && Splits(s, w.nb, k)
  }

  /** The chunk that is handed out: the last remainder, or else the last one found that is of just the size. */
  ghost function Winner(s: State, w: Task): int {
    var k := End(s, w, 0);
    var E := Fitting(s.H, Queue(s.H), k, w.nb);
    if Cuts(s, w) then Queue(s.H)[k] else if E == [] then NULL else E[|E| - 1]
  }

  /** The chunks that end up in the cache: the others of just the size. */
  ghost function Spare(s: State, w: Task): seq<int> {
    var E := Fitting(s.H, Queue(s.H), End(s, w, 0), w.nb);
    if Cuts(s, w) || E == [] then E else E[..|E| - 1]
  }

  /** Bin b with those of the first k chunks of U put in that are not of just the size and belong there, one after
      the other. */
  ghost function Stacked(H: Heap, U: seq<int>, k: nat, nb: int, b: int): seq<int>
    requires k <= |U|
  {
    if k == 0 then BinEntries(H, b)
    else if U[k - 1] in H && H[U[k - 1]].n != nb && BinIndex(H[U[k - 1]].n) == b then Shelved(H, Stacked(H, U, k - 1, nb, b), U[k - 1], H[U[k - 1]].n)
    else Stacked(H, U, k - 1, nb, b)
  }

  /** The first k chunks of U have left the list; each that is not of just the size was put into its bin. Nothing
      else has changed but for the chunk p. */
  ghost predicate Spread(H: Heap, H': Heap, U: seq<int>, k: nat, nb: int, p: int)
    requires k <= |U|
  {
    && (forall i {:trigger U[i]} :: 0 <= i < k && U[i] in H && H[U[i]].n != nb ==> InBin(H', U[i], BinIndex(H[U[i]].n)))
    && (forall b {:trigger BinEntries(H', b)} :: b >= 2 ==> BinEntries(H', b) == Stacked(H, U, k, nb, b))
    && (forall x {:trigger x in H} :: x in H ==> x in H' && (x != p ==> H'[x].n == H[x].n) && (x != p && x !in U[..k] ==> H'[x] == H[x]))
  }

  /** The chunks in `taken` have joined bin t of the cache, the last of them in front, and no other list has
      changed. */
  ghost predicate Filed(H: Heap, H': Heap, slots: seq<int>, slots': seq<int>, t: int, taken: seq<int>) {
    && Stashed(H, H', slots, slots', t, Backwards(taken))
    && forall j {:trigger Entries(H', j)} :: j < NFASTBINS ==> Entries(H', j) == Entries(H, j)
  }

  /** The list was worked off as far as it is to be, and p is what comes of it. */
  ghost predicate Worked(s: State, s': State, w: Task, p: int) {
    var B, U, k := BinEntries(s.H, UNSORTED), Queue(s.H), End(s, w, 0);
    && p == Winner(s, w) && Filed(s.H, s'.H, s.slots, s'.slots, w.Bin(), Spare(s, w)) && Spread(s.H, s'.H, U, k, w.nb, p)
    && if Cuts(s, w) then
         && p in s.H && p in s'.H && s'.H[p].n == w.nb && p + w.nb in s'.H && s'.H[p + w.nb].n == s.H[p].n - w.nb
         && BinEntries(s'.H, UNSORTED) == [p + w.nb] && s'.m.Head(Hdr(UNSORTED)) == p + w.nb
       else
         && BinEntries(s'.H, UNSORTED) == B[..|B| - k] && s'.H.Keys == s.H.Keys
         && s'.m.Head(Hdr(UNSORTED)) == s.m.Head(Hdr(UNSORTED))
  }

  /** The unsorted chunks that a pass does not come to: those in front of the last MAX_ITERS. */
  ghost function Left(H: Heap): seq<int> {
    var B := BinEntries(H, UNSORTED);
    if |B| > MAX_ITERS then B[..|B| - MAX_ITERS] else []
  }

  /** A free chunk that is in its bin already or gets there in a pass. */
  ghost predicate Reached(H: Heap, x: int) {
    InStock(H, x) && x !in Left(H)
  }

  /** If a pass finds nothing of just the size, its sorted bins hold just the chunks it reaches. */
  lemma WorkedStock(s: State, s': State, w: Task)
    requires Sound(s) && Sound(s') && Worked(s, s', w, NULL)
    ensures End(s, w, 0) == Min(|Queue(s.H)|, MAX_ITERS)
    ensures forall x {:trigger Reached(s.H, x)} {:trigger InStock(s'.H, x)} ::
              (Reached(s.H, x) <==> InStock(s'.H, x) && !InBin(s'.H, x, UNSORTED)) && (Reached(s.H, x) ==> s'.H[x].n == s.H[x].n)
  {
    hide Sound, BinEntries, Filed;
    var B, U, k := BinEntries(s.H, UNSORTED), Queue(s.H), End(s, w, 0);
    NothingFits(s, w);
    EndStops(s, w, 0);
    EndBound(s, w, 0);
    assert Left(s.H) == B[..|B| - k] == BinEntries(s'.H, UNSORTED);
    SoundBins(s);
    SoundBins(s');
    SoundLists(s);
    BinSpell(s.H, UNSORTED);
    BinSpell(s'.H, UNSORTED);
    forall x ensures (Reached(s.H, x) <==> InStock(s'.H, x) && !InBin(s'.H, x, UNSORTED)) && (Reached(s.H, x) ==> s'.H[x].n == s.H[x].n) {
      SortedOne(s, s', w, k, x);
    }
  }

  /** The bins after a pass over the unsorted list. */
  ghost function Restacked(s: State, w: Task): int -> seq<int> {
    b => Stacked(s.H, Queue(s.H), End(s, w, 0), w.nb, b)
  }

  lemma PickRestacked(s: State, s': State, w: Task)
    requires Sound(s) && Sound(s') && Worked(s, s', w, NULL) && w.nb >= MINSIZE
    ensures Pick(s'.H, Bins(s'.H), w.nb) == Pick(s.H, Restacked(s, w), w.nb)
  {
    hide Sound, BinEntries, Filed, Pick, Stacked, Full, Splits, BinIndex;
    NothingFits(s, w);
    SoundBins(s');
    SoundLists(s);
    BinSpell(s'.H, BinIndex(w.nb));
    PickSame(s'.H, s.H, Bins(s'.H), Restacked(s, w), w.nb);
  }

  lemma NothingFits(s: State, w: Task)
    requires Sound(s) && Winner(s, w) == NULL
    ensures Fitting(s.H, Queue(s.H), End(s, w, 0), w.nb) == [] && !Cuts(s, w)
  {
    hide Sound, BinEntries, Full;
    SoundLists(s);
    var k := End(s, w, 0);
    var E := Fitting(s.H, Queue(s.H), k, w.nb);
    if E != [] {
      AllFit(s.H, Queue(s.H), k, w.nb, |E| - 1);
    }
  }

  lemma {:induction false} EndStops(s: State, w: Task, j: nat)
    requires j <= |Queue(s.H)|
    ensures var k := End(s, w, j); k == |Queue(s.H)| || Full(s.H, Queue(s.H), w, k) || Splits(s, w.nb, k)
    decreases |Queue(s.H)| - j
  {
    hide Full, Splits, Queue;
    if End(s, w, j) != j {
      EndStops(s, w, j + 1);
    }
  }

  /** Without a chunk of just the size no more than MAX_ITERS are looked at. */
  lemma {:induction false} EndBound(s: State, w: Task, j: nat)
    requires j <= |Queue(s.H)| && j <= MAX_ITERS && Fitting(s.H, Queue(s.H), End(s, w, 0), w.nb) == [] && End(s, w, j) == End(s, w, 0)
    ensures End(s, w, 0) <= MAX_ITERS
    decreases |Queue(s.H)| - j
  {
    hide Splits, Queue;
    if End(s, w, j) != j {
      FittingGrows(s.H, Queue(s.H), j, End(s, w, 0), w.nb);
      EndBound(s, w, j + 1);
    }
  }

  lemma {:induction false} FittingGrows(H: Heap, U: seq<int>, j: nat, k: nat, nb: int)
    requires j <= k <= |U|
    ensures |Fitting(H, U, j, nb)| <= |Fitting(H, U, k, nb)|
    decreases k
  {
    if j < k {
      FittingGrows(H, U, j, k - 1, nb);
    }
  }

  lemma SortedOne(s: State, s': State, w: Task, k: nat, x: int)
    requires k <= |Queue(s.H)| && Sound(s) && Spread(s.H, s'.H, Queue(s.H), k, w.nb, NULL) && NULL !in s.H && s'.H.Keys == s.H.Keys
    requires Fitting(s.H, Queue(s.H), k, w.nb) == []
    requires x in Queue(s.H) ==> InBin(s.H, x, UNSORTED)
    requires x in Left(s.H) <==> InBin(s'.H, x, UNSORTED)
    ensures (Reached(s.H, x) <==> InStock(s'.H, x) && !InBin(s'.H, x, UNSORTED)) && (Reached(s.H, x) ==> s'.H[x].n == s.H[x].n)
  {
    hide Queue, Left, BinIndex, Sound;
    var U := Queue(s.H);
    assert x in s.H <==> x in s'.H;
    if i :| 0 <= i < k && U[i] == x {
      NotFitting(s.H, U, k, w.nb, i);
      ChunkLarge(s, x);
      BinIndexRange(s.H[x].n);
    }
  }

  lemma ChunkLarge(s: State, x: int)
    requires Sound(s) && InBin(s.H, x, UNSORTED)
    ensures s.H[x].n >= MINSIZE
  {
    assert Placed(s.H, s.base, s.top, x);
  }

  lemma {:induction false} NotFitting(H: Heap, U: seq<int>, k: nat, nb: int, i: nat)
    requires i < k <= |U| && Fitting(H, U, k, nb) == []
    ensures !Fits(H, U[i], nb)
  {
    if i < k - 1 {
      NotFitting(H, U, k - 1, nb, i);
    }
  }

  // ---------------------------------------------------------------- step by step

  /** After k chunks, with all that are of just the size in the cache. */
  ghost predicate Working(s: State, s1: State, w: Task, k: nat) {
    var B, U := BinEntries(s.H, UNSORTED), Queue(s.H);
    && k <= |U| && End(s, w, 0) == End(s, w, k) && BinEntries(s1.H, UNSORTED) == B[..|B| - k]
    && Filed(s.H, s1.H, s.slots, s1.slots, w.Bin(), Fitting(s.H, U, k, w.nb)) && Spread(s.H, s1.H, U, k, w.nb, NULL)
    && s1.H.Keys == s.H.Keys && NULL !in s.H && s1.m.Head(Hdr(UNSORTED)) == s.m.Head(Hdr(UNSORTED))
  }

  lemma WorkStart(s: State, w: Task)
    requires Sound(s)
    ensures Working(s, s, w, 0) && !Full(s.H, Queue(s.H), w, 0)
  {
    hide BinEntries, Entries, Sound;
    SoundLists(s);
    var B := BinEntries(s.H, UNSORTED);
    assert B[..|B|] == B;
    assert Backwards([]) == [];
    forall j ensures Entries(s.H, j) == [] + Entries(s.H, j) {}
  }

  /** The chunk that is looked at next is the next of the queue, and its size is what it was. */
  lemma WorkNext(s: State, s1: State, w: Task, k: nat, R: seq<int>, p: int)
    requires Sound(s) && Working(s, s1, w, k) && BinEntries(s1.H, UNSORTED) == R + [p]
    ensures var U := Queue(s.H); k < |U| && U[k] == p && p in s.H && p in s1.H && s1.H[p].n == s.H[p].n && InBin(s.H, p, UNSORTED)
    ensures var B := BinEntries(s.H, UNSORTED); R == B[..|B| - k - 1]
  {
    hide BinEntries, Sound, Filed;
    SoundBins(s);
    BinSpell(s.H, UNSORTED);
    var B := BinEntries(s.H, UNSORTED);
    assert B[..|B| - k][|B| - k - 1] == p;
    assert R == B[..|B| - k][..|B| - k - 1];
    SoundLists(s);
  }

  /** A chunk of another size was binned. */
  lemma WorkStored(s: State, s1: State, s2: State, w: Task, k: nat, p: int)
    requires Sound(s) && Sound(s1) && Sound(s2) && Working(s, s1, w, k) && !Full(s.H, Queue(s.H), w, k) && !Splits(s, w.nb, k)
    requires BinEntries(s1.H, UNSORTED) == BinEntries(s2.H, UNSORTED) + [p] && p in s1.H && s1.H[p].n != w.nb
    requires p in s2.H && s2.H == s1.H[p := s2.H[p]] && s2.H[p].n == s1.H[p].n && InBin(s2.H, p, BinIndex(s1.H[p].n))
    requires SameListed(s1.H, s2.H) && s2.slots == s1.slots && s2.m.Head(Hdr(UNSORTED)) == s1.m.Head(Hdr(UNSORTED))
    requires Racked(s1.H, s2.H, p, s1.H[p].n, true)
    ensures Working(s, s2, w, k + 1) && Fitting(s.H, Queue(s.H), k + 1, w.nb) == Fitting(s.H, Queue(s.H), k, w.nb)
  {
    hide BinEntries, Entries, Sound, Filed, Full, Splits, SameListed, BinIndex;
    SoundBins(s1);
    WorkNext(s, s1, w, k, BinEntries(s2.H, UNSORTED), p);
    FiledSame(s, s1, s2, w.Bin(), Fitting(s.H, Queue(s.H), k, w.nb));
    SpreadMore(s.H, s1.H, s2.H, Queue(s.H), k, w.nb, p);
  }

  /** A chunk that left the unsorted list was put into its bin, if it was put into one at all. */
  ghost predicate Racked(H: Heap, H': Heap, p: int, n: int, stored: bool) {
    forall b {:trigger BinEntries(H', b)} :: b >= 2 ==>
      BinEntries(H', b) == if stored && b == BinIndex(n) then Shelved(H, BinEntries(H, b), p, n) else BinEntries(H, b)
  }

  lemma SpreadMore(H: Heap, H1: Heap, H2: Heap, U: seq<int>, k: nat, nb: int, p: int)
    requires k < |U| && U[k] == p && Spread(H, H1, U, k, nb, NULL) && NULL !in H && p in H && H2.Keys == H1.Keys
    requires p in H1 && p in H2 && H2 == H1[p := H2[p]] && H2[p].n == H1[p].n && (H[p].n != nb ==> InBin(H2, p, BinIndex(H[p].n)))
    requires BinRanksDiffer(H1) && H1.Keys == H.Keys && Racked(H1, H2, p, H1[p].n, H1[p].n != nb)
    ensures Spread(H, H2, U, k + 1, nb, NULL)
  {
    hide BinIndex, BinEntries, Shelved;
    assert forall x {:trigger x in U[..k + 1]} :: x in U[..k + 1] <==> x in U[..k] || x == p;
    forall b | b >= 2 ensures BinEntries(H2, b) == Stacked(H, U, k + 1, nb, b) {
      assert BinEntries(H2, b) == BinEntries(H2, b) && BinEntries(H1, b) == BinEntries(H1, b);
      ShelvedSame(H, H1, b, p, H[p].n);
    }
  }

  /** Only sizes matter for the place. */
  lemma ShelvedSame(H: Heap, H1: Heap, b: int, p: int, n: int)
    requires BinRanksDiffer(H1) && forall x {:trigger x in H1} :: x in H1 ==> x in H && H[x].n == H1[x].n
    ensures Shelved(H, BinEntries(H1, b), p, n) == Shelved(H1, BinEntries(H1, b), p, n)
  {
    hide BinEntries, Place;
    BinSpell(H1, b);
    PlaceSame(H, H1, BinEntries(H1, b), n);
  }

  lemma FiledSame(s: State, s1: State, s2: State, t: int, E: seq<int>)
    requires Sound(s1) && Sound(s2) && SameListed(s1.H, s2.H) && s2.slots == s1.slots && Filed(s.H, s1.H, s.slots, s1.slots, t, E)
    ensures Filed(s.H, s2.H, s.slots, s2.slots, t, E)
  {
    hide Entries, Sound, SameListed;
    SoundLists(s1);
    SoundLists(s2);
    forall j ensures Entries(s2.H, j) == Entries(s1.H, j) {
      EntriesSame(s1.H, s2.H, j);
    }
  }

  /** A chunk of just the size went to the cache. */
  lemma WorkCached(s: State, s1: State, s2: State, w: Task, k: nat, p: int)
    requires Sound(s) && Sound(s1) && Sound(s2) && Working(s, s1, w, k) && !Full(s.H, Queue(s.H), w, k) && !Splits(s, w.nb, k)
    requires BinEntries(s1.H, UNSORTED) == BinEntries(s2.H, UNSORTED) + [p] && p in s1.H && s1.H[p].n == w.nb
    requires p in s2.H && s2.H == s1.H[p := s2.H[p]] && s2.H[p].n == s1.H[p].n
    requires var t := w.Bin(); 0 <= t < |s.slots| && t < |s1.slots| && w.room == s.slots[t] && 0 < s1.slots[t] && s2.slots == s1.slots[t := s1.slots[t] - 1]
    requires EntersFront(s1.H, s2.H, TList(w.Bin()), p) && s2.m.Head(Hdr(UNSORTED)) == s1.m.Head(Hdr(UNSORTED))
    requires Racked(s1.H, s2.H, p, s1.H[p].n, false)
    ensures Working(s, s2, w, k + 1) && !Full(s.H, Queue(s.H), w, k + 1)
    ensures Fitting(s.H, Queue(s.H), k + 1, w.nb) == Fitting(s.H, Queue(s.H), k, w.nb) + [p]
  {
    hide BinEntries, Entries, Sound, EntersFront, Splits, BinIndex;
    SoundBins(s1);
    WorkNext(s, s1, w, k, BinEntries(s2.H, UNSORTED), p);
    var E := Fitting(s.H, Queue(s.H), k, w.nb);
    assert s1.slots[w.Bin()] == s.slots[w.Bin()] - |E|;
    FiledMore(s.H, s1.H, s2.H, s.slots, s1.slots, s2.slots, w.Bin(), E, p);
    SpreadMore(s.H, s1.H, s2.H, Queue(s.H), k, w.nb, p);
  }

  lemma FiledMore(H: Heap, H1: Heap, H2: Heap, slots: seq<int>, slots1: seq<int>, slots2: seq<int>, t: int, E: seq<int>, p: int)
    requires Filed(H, H1, slots, slots1, t, E) && EntersFront(H1, H2, TList(t), p) && 0 <= t < |slots|
    requires t < |slots1| && slots2 == slots1[t := slots1[t] - 1]
    ensures Filed(H, H2, slots, slots2, t, E + [p])
  {
    hide Entries;
    assert Backwards(E + [p]) == [p] + Backwards(E);
    forall j ensures Entries(H2, j) == if j == TList(t) then Backwards(E + [p]) + Entries(H, j) else Entries(H, j) {
      assert Entries(H2, j) == Entries(H2, j) && Entries(H1, j) == Entries(H1, j);
      assert [p] + (Backwards(E) + Entries(H, j)) == Backwards(E + [p]) + Entries(H, j);
    }
  }

  /** A chunk of just the size was handed out because the cache has no room for it. */
  lemma WorkHanded(s: State, s1: State, s2: State, w: Task, k: nat, p: int)
    requires Sound(s) && Sound(s1) && Sound(s2) && Working(s, s1, w, k) && !Full(s.H, Queue(s.H), w, k) && !Splits(s, w.nb, k)
    requires BinEntries(s1.H, UNSORTED) == BinEntries(s2.H, UNSORTED) + [p] && p in s1.H && s1.H[p].n == w.nb
    requires p in s2.H && s2.H == s1.H[p := s2.H[p]] && s2.H[p].n == s1.H[p].n
    requires |Fitting(s.H, Queue(s.H), k, w.nb)| == w.room && Racked(s1.H, s2.H, p, s1.H[p].n, false)
    requires SameListed(s1.H, s2.H) && s2.slots == s1.slots && s2.m.Head(Hdr(UNSORTED)) == s1.m.Head(Hdr(UNSORTED))
    ensures Worked(s, s2, w, p)
  {
    hide BinEntries, Entries, Sound, Filed, Splits, SameListed, BinIndex;
    SoundBins(s1);
    WorkNext(s, s1, w, k, BinEntries(s2.H, UNSORTED), p);
    var E := Fitting(s.H, Queue(s.H), k, w.nb);
    FiledSame(s, s1, s2, w.Bin(), E);
    SpreadMore(s.H, s1.H, s2.H, Queue(s.H), k, w.nb, p);
    assert (E + [p])[..|E|] == E;
    assert Fitting(s.H, Queue(s.H), k + 1, w.nb) == E + [p];
    assert End(s, w, k) == End(s, w, k + 1) == k + 1;
  }

  /** The last remainder was cut. */
  lemma WorkSplit(s: State, s1: State, s2: State, w: Task, k: nat, p: int)
    requires Sound(s) && Sound(s1) && Sound(s2) && Working(s, s1, w, k) && !Full(s.H, Queue(s.H), w, k)
    requires BinEntries(s1.H, UNSORTED) == [p] && p in s1.H && s1.H[p].n > w.nb + MINSIZE && p == s1.m.Head(Hdr(UNSORTED)) && InSmallRange(w.nb)
    requires p in s2.H && s2.H[p].n == w.nb && p + w.nb in s2.H && s2.H[p + w.nb].n == s1.H[p].n - w.nb
    requires s1.H.Keys <= s2.H.Keys && forall x {:trigger x in s1.H} :: x in s1.H && x != p ==> s2.H[x] == s1.H[x]
    requires BinEntries(s2.H, UNSORTED) == [p + w.nb] && s2.m.Head(Hdr(UNSORTED)) == p + w.nb
    requires SameListed(s1.H, s2.H) && s2.slots == s1.slots && Racked(s1.H, s2.H, p, s1.H[p].n, false)
    ensures Worked(s, s2, w, p)
  {
    hide BinEntries, Entries, Sound, Filed, SameListed, BinIndex, Full, Shelved;
    assert [p] == [] + [p];
    WorkNext(s, s1, w, k, [], p);
    FiledSame(s, s1, s2, w.Bin(), Fitting(s.H, Queue(s.H), k, w.nb));
    assert Cuts(s, w) && End(s, w, 0) == k;
    QueueDistinct(s, k);
    SpreadApart(s.H, s1.H, s2.H, Queue(s.H), k, w.nb, p);
  }

  lemma QueueDistinct(s: State, k: nat)
    requires Sound(s) && k < |Queue(s.H)|
    ensures Queue(s.H)[k] !in Queue(s.H)[..k]
  {
    hide BinEntries, Sound;
    SoundBins(s);
    BinSpell(s.H, UNSORTED);
    var B, U := BinEntries(s.H, UNSORTED), Queue(s.H);
    forall i | 0 <= i < k ensures U[i] != U[k] {
      assert Rank(s.H, B[|B| - 1 - k]) < Rank(s.H, B[|B| - 1 - i]);
    }
  }

  lemma SpreadApart(H: Heap, H1: Heap, H2: Heap, U: seq<int>, k: nat, nb: int, p: int)
    requires k <= |U| && Spread(H, H1, U, k, nb, NULL) && NULL !in H && p in H && p in H2 && p !in U[..k]
    requires H1.Keys <= H2.Keys && forall x {:trigger x in H1} :: x in H1 && x != p ==> H2[x] == H1[x]
    requires p in H1 && Racked(H1, H2, p, H1[p].n, false)
    ensures Spread(H, H2, U, k, nb, p)
  {
    hide BinIndex, BinEntries, Shelved;
    StackedOn(H, H1, H2, U, k, nb, p);
    forall i | 0 <= i < k && U[i] in H && H[U[i]].n != nb ensures InBin(H2, U[i], BinIndex(H[U[i]].n)) {
      assert U[i] in U[..k] && U[i] in H1;
    }
  }

  /** The pass ends after k chunks; if some were cached the newest of them is handed out. */
  lemma WorkDone(s: State, s1: State, s2: State, w: Task, k: nat, p: int)
    requires Sound(s) && Sound(s1) && Working(s, s1, w, k) && End(s, w, k) == k && (Full(s.H, Queue(s.H), w, k) || k == |Queue(s.H)|)
    requires var E := Fitting(s.H, Queue(s.H), k, w.nb);
             if E == [] then p == NULL && s2 == s1
             else LeavesFront(s1.H, s2.H, TList(w.Bin()), p) && 0 <= w.Bin() < |s.slots| && w.Bin() < |s1.slots|
                  && s2.slots == s1.slots[w.Bin() := s1.slots[w.Bin()] + 1] && p in s1.H && p in s2.H && s2.H == s1.H[p := s2.H[p]] && s2.H[p].n == s1.H[p].n
                  && BinEntries(s2.H, UNSORTED) == BinEntries(s1.H, UNSORTED) && Racked(s1.H, s2.H, p, s1.H[p].n, false) && s2.m.Head(Hdr(UNSORTED)) == s1.m.Head(Hdr(UNSORTED))
    ensures Worked(s, s2, w, p)
  {
    hide BinEntries, Entries, Sound, LeavesFront, BinIndex, Full;
    var E := Fitting(s.H, Queue(s.H), k, w.nb);
    if E != [] {
      FiledLess(s.H, s1.H, s2.H, s.slots, s1.slots, s2.slots, w.Bin(), E, p);
      AllFit(s.H, Queue(s.H), k, w.nb, |E| - 1);
      SpreadLess(s.H, s1.H, s2.H, Queue(s.H), k, w.nb, p);
    }
  }

  lemma {:induction false} AllFit(H: Heap, U: seq<int>, k: nat, nb: int, i: nat)
    requires k <= |U| && i < |Fitting(H, U, k, nb)|
    ensures Fits(H, Fitting(H, U, k, nb)[i], nb)
  {
    if i < |Fitting(H, U, k - 1, nb)| {
      AllFit(H, U, k - 1, nb, i);
    }
  }

  lemma SpreadLess(H: Heap, H1: Heap, H2: Heap, U: seq<int>, k: nat, nb: int, p: int)
    requires k <= |U| && Spread(H, H1, U, k, nb, NULL) && NULL !in H && Fits(H, p, nb) && p in H1 && p in H2 && H2 == H1[p := H2[p]]
    requires Racked(H1, H2, p, H1[p].n, false)
    ensures Spread(H, H2, U, k, nb, p)
  {
    hide BinIndex, BinEntries, Shelved;
    StackedOn(H, H1, H2, U, k, nb, p);
  }

  lemma StackedOn(H: Heap, H1: Heap, H2: Heap, U: seq<int>, k: nat, nb: int, p: int)
    requires k <= |U| && Spread(H, H1, U, k, nb, NULL) && p in H1 && Racked(H1, H2, p, H1[p].n, false)
    ensures forall b {:trigger BinEntries(H2, b)} :: b >= 2 ==> BinEntries(H2, b) == Stacked(H, U, k, nb, b)
  {
    hide BinIndex, BinEntries, Shelved, Stacked;
    forall b | b >= 2 ensures BinEntries(H2, b) == Stacked(H, U, k, nb, b) {
      assert BinEntries(H2, b) == BinEntries(H2, b) && BinEntries(H1, b) == BinEntries(H1, b);
    }
  }

  lemma FiledLess(H: Heap, H1: Heap, H2: Heap, slots: seq<int>, slots1: seq<int>, slots2: seq<int>, t: int, E: seq<int>, p: int)
    requires Filed(H, H1, slots, slots1, t, E) && LeavesFront(H1, H2, TList(t), p) && 0 <= t < |slots| && E != []
    requires t < |slots1| && slots2 == slots1[t := slots1[t] + 1]
    ensures p == E[|E| - 1] && Filed(H, H2, slots, slots2, t, E[..|E| - 1])
  {
    hide Entries;
    var E' := E[..|E| - 1];
    assert Backwards(E) == [E[|E| - 1]] + Backwards(E');
    assert Entries(H1, TList(t)) == [p] + Entries(H2, TList(t)) && Entries(H1, TList(t))[0] == E[|E| - 1];
    forall j ensures Entries(H2, j) == if j == TList(t) then Backwards(E') + Entries(H, j) else Entries(H, j) {
      if j == TList(t) {
        assert Backwards(E) + Entries(H, j) == [p] + (Backwards(E') + Entries(H, j));
        SameRest(p, Entries(H2, j), Backwards(E') + Entries(H, j));
      }
      assert Entries(H1, j) == Entries(H1, j);
    }
  }

  lemma SameRest(p: int, A: seq<int>, B: seq<int>)
    requires [p] + A == [p] + B
    ensures A == B
  {
    assert ([p] + A)[1..] == A && ([p] + B)[1..] == B;
  }
}
