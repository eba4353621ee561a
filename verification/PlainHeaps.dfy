/** Heaps whose chunks are known because blocks in use fill them. */
module PlainHeaps {
  import opened Memory
  import opened Heap
  import opened Arena
  import opened Free
  import opened Segments

  /** Where the arena begins with top there are no chunks. */
  lemma NoChunks(s: State)
    requires Sound(s) && (s.sbrkBase == NULL || s.top == s.base)
    ensures s.H == map[]
    ensures s.sbrkBase == NULL ==> s.top == Hdr(UNSORTED) && s.m.Size(s.top) == 0
  {
    hide Links, Marks, Slots, Fresh;
    EntryFacts(s);
    forall x ensures x !in s.H {
      assert x in s.H ==> Placed(s.H, s.base, s.top, x);
    }
  }

  /** A block that ends where top begins is the last one. */
  lemma LastBlock(s: State, p: int, nb: int)
    requires Sound(s) && p in LiveOf(s.H) && LiveOf(s.H)[p] >= nb && s.top == p + nb
    ensures p in s.H && LiveOf(s.H)[p] == s.H[p].n == nb && s.H[p].st.Live?
  {
    hide Links, Marks, Slots, Fresh;
    assert Placed(s.H, s.base, s.top, p);
  }

  lemma BaseBelow(s: State)
    requires Sound(s) && s.sbrkBase != NULL
    ensures s.base <= s.top
  {
    EntryFacts(s);
  }

  /** A block that reaches from the beginning of the arena to top is the only chunk. */
  lemma OnlyBlock(s: State, p: int, n: int)
    requires Sound(s) && Quiet(s.H) && p in LiveOf(s.H) && LiveOf(s.H)[p] == n && p == s.base && s.top <= p + n
    ensures s.H == map[p := Chunk(n, Live)] && s.top == p + n
    ensures s.m.PrevInuse(p) && s.m.Size(p) == n
  {
    hide Links, Marks, Slots, Fresh;
    assert Placed(s.H, s.base, s.top, p);
    forall x ensures x in s.H <==> x == p {
      assert x in s.H ==> Placed(s.H, s.base, s.top, x) && (x != p ==> Apart(s.H, x, p));
    }
    BelowFacts(s, p);
    assert !s.m.PrevInuse(p) ==> p - s.m.PrevSize(p) in s.H && p - s.m.PrevSize(p) < p;
  }

  /** The same for two blocks. */
  lemma TwoBlocks(s: State, p: int, n: int, q: int, k: int)
    requires Sound(s) && Quiet(s.H) && p in LiveOf(s.H) && LiveOf(s.H)[p] == n && p == s.base && q == p + n
    requires q in LiveOf(s.H) && LiveOf(s.H)[q] >= k && s.top == q + k
    ensures s.H == map[p := Chunk(n, Live), q := Chunk(k, Live)]
    ensures s.m.PrevInuse(q) && s.m.Size(q) == k
  {
    hide Links, Marks, Slots, Fresh;
    assert Placed(s.H, s.base, s.top, p) && Placed(s.H, s.base, s.top, q);
    forall x ensures x in s.H <==> x == p || x == q {
      assert x in s.H ==> Placed(s.H, s.base, s.top, x) && (x != p ==> Apart(s.H, x, p)) && (x != q ==> Apart(s.H, x, q));
    }
    NextFacts(s, p);
    BelowFacts(s, q);
  }
}
