/** Walking the heap from its first chunk to top. */
module Walk {
  import opened Heap

  /** Walk from chunk to chunk up to top, adding up all sizes. */
  ghost function WalkAll(H: Heap, base: int, top: int, p: int): int
    requires Tiled(H, base, top) && (p == top || p in H)
    decreases top - p
  {
    if p == top then 0 else
      assert Placed(H, base, top, p);
      H[p].n + WalkAll(H, base, top, p + H[p].n)
  }

  /** The chunks account for every byte from the first one up to top. */
  lemma {:induction false} WalkCovers(H: Heap, base: int, top: int, p: int)
    requires Tiled(H, base, top) && (p == top || p in H)
    ensures WalkAll(H, base, top, p) == top - p
    decreases top - p
  {
    if p != top {
      assert Placed(H, base, top, p);
      WalkCovers(H, base, top, p + H[p].n);
    }
  }

  /** Every address between the first chunk and top lies in exactly one chunk. */
  lemma {:induction false} WalkFinds(H: Heap, base: int, top: int, p: int, a: int) returns (c: int)
    requires Tiled(H, base, top) && (p == top || p in H) && p <= a < top
    ensures c in H && c <= a < c + H[c].n && forall d {:trigger d in H} :: d in H && d <= a < d + H[d].n ==> d == c
    decreases top - p
  {
    assert Placed(H, base, top, p);
    if a < p + H[p].n {
      c := p;
      forall d | d in H && d <= a < d + H[d].n ensures d == c {
        assert d != c ==> Apart(H, d, c);
      }
    } else {
      c := WalkFinds(H, base, top, p + H[p].n, a);
    }
  }
}
