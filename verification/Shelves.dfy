/** The bins as sequences: where a chunk goes in its bin, and which chunk is chosen. */
module Shelves {
  import opened Sizes
  import opened Memory
  import opened Heap
  import opened RingProofs
  import opened Arena
  import opened FreeChunk
  import opened ListEntries

  /** In a list in descending order of size: behind all larger chunks, and behind the first of the same size. */
  ghost function Place(H: Heap, L: seq<int>, n: int): (k: nat)
    ensures k <= |L|
  {
    if L == [] || L[0] !in H || H[L[0]].n < n then 0
    else if H[L[0]].n == n then 1
    else 1 + Place(H, L[1..], n)
  }

  /** The bin L with chunk p of n bytes put in: in front if it is small, in order if it is large. */
  ghost function Shelved(H: Heap, L: seq<int>, p: int, n: int): seq<int> {
    if InSmallRange(n) then [p] + L else Insert(L, Place(H, L, n), p)
  }

  lemma {:induction false} PlaceIs(H: Heap, L: seq<int>, n: int, k: nat)
    requires k <= |L| && forall i {:trigger L[i]} :: 0 <= i < |L| ==> L[i] in H
    requires forall i {:trigger L[i]} :: 0 <= i < k - 1 ==> H[L[i]].n > n
    requires k > 0 ==> H[L[k - 1]].n >= n
    requires k < |L| ==> H[L[k]].n < n || (k > 0 && H[L[k - 1]].n == n)
    ensures Place(H, L, n) == k
  {
    if k > 0 && H[L[0]].n > n {
      PlaceIs(H, L[1..], n, k - 1);
    }
  }

  lemma {:induction false} PlaceSame(H: Heap, H': Heap, L: seq<int>, n: int)
    requires forall i {:trigger L[i]} :: 0 <= i < |L| ==> L[i] in H && L[i] in H' && H'[L[i]].n == H[L[i]].n
    ensures Place(H', L, n) == Place(H, L, n)
  {
    if L != [] {
      PlaceSame(H, H', L[1..], n);
    }
  }

  /** A chunk that was in no bin is linked in behind `bck`. */
  lemma BinInsert(s: State, H': Heap, p: int, b: int, bck: int, r: real) returns (k: nat)
    requires Sound(s) && BinRanksDiffer(H') && p in s.H && !s.H[p].st.Binned? && Slot(s.m, s.H, b, bck, s.m.Fd(bck), r)
    requires H' == s.H[p := Chunk(s.H[p].n, Binned(b, r))]
    ensures var L, fwd := BinEntries(s.H, b), s.m.Fd(bck);
            && k <= |L| && (if k == 0 then bck == Hdr(b) else L[k - 1] == bck) && (if k == |L| then fwd == Hdr(b) else L[k] == fwd)
            && BinEntries(H', b) == Insert(L, k, p)
  {
    hide BinEntries;
    SoundBins(s);
    SoundLists(s);
    BinSpell(s.H, b);
    var L := BinEntries(s.H, b);
    k := 0;
    if InBin(s.H, bck, b) {
      var i :| 0 <= i < |L| && L[i] == bck;
      k := i + 1;
    }
    NextIs(s, b, bck, k);
    InsertedSpells(s.H, H', L, k, p, b);
  }

  lemma InsertedSpells(H: Heap, H': Heap, L: seq<int>, k: nat, p: int, b: int)
    requires BinRanksDiffer(H') && Spells(H, BinSet(H, b), L) && k <= |L| && p in H && !H[p].st.Binned?
    requires p in H' && H' == H[p := H'[p]] && InBin(H', p, b)
    requires (k > 0 ==> Rank(H, L[k - 1]) < Rank(H', p)) && (k < |L| ==> Rank(H', p) < Rank(H, L[k]))
    ensures BinEntries(H', b) == Insert(L, k, p)
  {
    hide Spells, BinEntries;
    forall x | x in BinSet(H, b) ensures Rank(H', x) == Rank(H, x) {
      assert x != p;
    }
    SpellsInsert(H, H', BinSet(H, b), L, k, p);
    assert BinSet(H', b) == BinSet(H, b) + {p};
    BinEntriesAre(H', b, Insert(L, k, p));
  }

  /** What follows a node of the ring is the next entry. */
  lemma NextIs(s: State, b: int, bck: int, k: nat)
    requires Sound(s) && 1 <= b <= 126 && k <= |BinEntries(s.H, b)| && (if k == 0 then bck == Hdr(b) else BinEntries(s.H, b)[k - 1] == bck)
    ensures var L, fwd := BinEntries(s.H, b), s.m.Fd(bck); if k == |L| then fwd == Hdr(b) else L[k] == fwd
  {
    hide BinEntries;
    SoundBins(s);
    SoundLists(s);
    BinSpell(s.H, b);
    var L, fwd := BinEntries(s.H, b), s.m.Fd(bck);
    assert !InBin(s.H, Hdr(b), b);
    assert Node(s.H, bck, b) && RingAt(s.m, s.H, b, bck);
    if k < |L| {
      if k > 0 {
        RankOrder(s.H, L, k - 1, k);
      }
      assert InBin(s.H, L[k], b) && InBin(s.H, fwd, b) && Rank(s.H, fwd) <= Rank(s.H, L[k]);
      var j :| 0 <= j < |L| && L[j] == fwd;
      RankOrder(s.H, L, k, j);
      if k > 0 {
        RankOrder(s.H, L, k - 1, j);
      }
    } else {
      forall j | 0 <= j < |L| ensures L[j] != fwd {
        RankOrder(s.H, L, k - 1, j);
      }
    }
  }

  // ---------------------------------------------------------------- the choice

  /** How many chunks at the beginning of L can hold nb bytes. */
  ghost function Reach(H: Heap, L: seq<int>, nb: int): (c: nat)
    ensures c <= |L| && (c > 0 ==> L[c - 1] in H)
  {
    if L == [] || L[0] !in H || H[L[0]].n < nb then 0 else 1 + Reach(H, L[1..], nb)
  }

  /** In a list in descending order of size: of the smallest chunks that fit the second, or the only one. */
  ghost function OwnPick(H: Heap, L: seq<int>, nb: int): int {
    var c := Reach(H, L, nb);
    if c == 0 then NULL else
      var k := Place(H, L, H[L[c - 1]].n);
      if k < c then L[k] else L[c - 1]
  }

  ghost function Bins(H: Heap): int -> seq<int> {
    b => BinEntries(H, b)
  }

  /** The last chunk of the lowest bin from b up that is not empty. */
  ghost function AbovePick(bins: int -> seq<int>, b: int): int
    decreases 127 - b
  {
    if b > 126 then NULL else if bins(b) != [] then bins(b)[|bins(b)| - 1] else AbovePick(bins, b + 1)
  }

  /** The chunk for a request of nb bytes: from the request's own bin if that is a large one and something in it
      fits, otherwise from the bins above. */
  ghost function Pick(H: Heap, bins: int -> seq<int>, nb: int): int {
    var own := if InSmallRange(nb) then NULL else OwnPick(H, bins(BinIndex(nb)), nb);
    if own != NULL then own else AbovePick(bins, BinIndex(nb) + 1)
  }

  lemma {:induction false} ReachIs(H: Heap, L: seq<int>, nb: int)
    requires forall i {:trigger L[i]} :: 0 <= i < |L| ==> L[i] in H
    ensures var c := Reach(H, L, nb);
            && (forall i {:trigger L[i]} :: 0 <= i < c ==> H[L[i]].n >= nb) && (c < |L| ==> H[L[c]].n < nb)
  {
    if L != [] && H[L[0]].n >= nb {
      ReachIs(H, L[1..], nb);
    }
  }

  ghost predicate Descending(H: Heap, L: seq<int>) {
    && (forall i {:trigger L[i]} :: 0 <= i < |L| ==> L[i] in H)
    && forall i, j {:trigger L[i], L[j]} :: 0 <= i < j < |L| ==> H[L[i]].n >= H[L[j]].n
  }

  /** The first of the smallest chunks that fit is at i. */
  lemma OwnPickIs(H: Heap, L: seq<int>, nb: int, i: nat)
    requires Descending(H, L) && i < |L| && H[L[i]].n >= nb && nb > 0 && NULL !in H
    requires forall j {:trigger L[j]} :: 0 <= j < |L| && H[L[j]].n >= nb ==> H[L[j]].n >= H[L[i]].n
    requires forall j {:trigger L[j]} :: 0 <= j < i ==> H[L[j]].n > H[L[i]].n
    ensures OwnPick(H, L, nb) == if i + 1 < |L| && H[L[i + 1]].n == H[L[i]].n then L[i + 1] else L[i]
  {
    hide Place, Reach;
    ReachIs(H, L, nb);
    PlaceIs(H, L, H[L[i]].n, i + 1);
    var c := Reach(H, L, nb);
    assert c > i;
  }

  lemma {:induction false} ReachSame(H: Heap, H': Heap, L: seq<int>, nb: int)
    requires forall i {:trigger L[i]} :: 0 <= i < |L| ==> L[i] in H && L[i] in H' && H'[L[i]].n == H[L[i]].n
    ensures Reach(H', L, nb) == Reach(H, L, nb)
  {
    if L != [] {
      ReachSame(H, H', L[1..], nb);
    }
  }

  /** Only sizes matter for the choice. */
  lemma PickSame(H: Heap, H': Heap, bins: int -> seq<int>, bins': int -> seq<int>, nb: int)
    requires nb >= MINSIZE && forall b {:trigger bins(b)} {:trigger bins'(b)} :: b >= 2 ==> bins'(b) == bins(b)
    requires forall i {:trigger bins(BinIndex(nb))[i]} :: 0 <= i < |bins(BinIndex(nb))| ==>
               var x := bins(BinIndex(nb))[i]; x in H && x in H' && H'[x].n == H[x].n
    ensures Pick(H', bins', nb) == Pick(H, bins, nb)
  {
    hide BinIndex;
    BinIndexRange(nb);
    var L := bins(BinIndex(nb));
    ReachSame(H, H', L, nb);
    var c := Reach(H, L, nb);
    if c > 0 {
      PlaceSame(H, H', L, H[L[c - 1]].n);
    }
    AboveSame(bins, bins', BinIndex(nb) + 1);
  }

  lemma {:induction false} AboveSame(bins: int -> seq<int>, bins': int -> seq<int>, b: int)
    requires b >= 2 && forall c {:trigger bins(c)} {:trigger bins'(c)} :: c >= 2 ==> bins'(c) == bins(c)
    ensures AbovePick(bins', b) == AbovePick(bins, b)
    decreases 127 - b
  {
    if b <= 126 && bins(b) == [] {
      AboveSame(bins, bins', b + 1);
    }
  }

  lemma {:induction false} AboveIs(bins: int -> seq<int>, lo: int, b: int)
    requires lo <= b <= 127 && (b <= 126 ==> bins(b) != []) && forall c {:trigger bins(c)} :: lo <= c < b ==> bins(c) == []
    ensures AbovePick(bins, lo) == if b > 126 then NULL else bins(b)[|bins(b)| - 1]
    decreases b - lo
  {
    if lo < b {
      AboveIs(bins, lo + 1, b);
    }
  }
}
